# encrypt-files-lambda, modelled in Dafny

The repository is an AWS Lambda written in Rust. When called over HTTP it
lists every object in a source bucket. For each listed key it downloads the
object, encrypts it with XChaCha20-Poly1305 under one key and nonce drawn
for the whole invocation, uploads the ciphertext under the same key to the
bucket "<source>-encrypted", and deletes the original. One error flag is
kept across the batch. If the listing fails, the handler returns that
error and makes no other request. Otherwise the response has status 200,
and its body carries the hex-encoded key and nonce only when no stage
failed for any key. Because one key and one nonce serve the whole batch,
every file of an invocation is encrypted under the same XChaCha20-Poly1305
nonce; `Handler.ProcessKeysEffect` states this, and the model shows it
rather than preventing it. The
repository also has a validator, `get_file_props`, for S3 object-creation
event records.

What the model contains:

- `common.dfy` (module `Common`): bytes, `Option`, `Result`, substring search.
- `hex.dfy` (module `Hex`): the lowercase base-16 encoding that `hex::encode`
  produces, with a decoder and round-trip lemmas in both directions.
- `s3_client.dfy` (module `S3Client`): the pure parts of `src/s3_client.rs`.
  These are `object_to_keys` and the mapping from an SDK outcome to the
  `Result` that each wrapper returns.
- `store.dfy` (module `Store`): the storage service behind the four traits
  `GetFile`, `DeleteFile`, `PutFile` and `ListFiles`. Its state is a map
  from (bucket, key) to bytes and a record of every request, in order. A
  `Backend` plan decides which request fails. The plan gives the listing
  response and an optional error for each get, put and delete, indexed by
  the request's position among all requests. Class `ObjectStore` does the
  requests in place. Each of its methods is proved against a pure step
  function (`ListStep`, `GetStep`, `PutStep`, `DeleteStep`).
- `handler.dfy` (module `Handler`): `function_handler` as the method
  `FunctionHandler`. It has the same loop, the same early `continue`s and
  the same error flag as the Rust code. It is proved equal to the pure
  specification `Handle`, which is built from `ProcessKey` (one iteration)
  and `ProcessKeys` (the loop). The module also holds `get_encrypted_file`
  over an uninterpreted cipher, the two response messages and
  `get_file_props`.
- `handler_properties.dfy` (module `HandlerProperties`): invocation-level
  theorems. They cover listing order, exactly-once fetching, which keys
  are uploaded and deleted, where each request goes, the response message,
  and a two-object example.

## Deletion after a failed upload

One would expect the original to be deleted only after its encrypted copy
is stored. The code does not do this. In `src/main.rs:76-82` a failed
`put_file` sets the error flag but does not `continue`. So the
`delete_file` at `src/main.rs:84-90` runs whatever the upload's result
was. The model follows the code:

- `HandlerProperties.FailedUploadStillDeletesSource` proves that a failed
  upload followed by a successful delete removes the plaintext. It also
  proves that no object in the "-encrypted" bucket changed.
- `HandlerProperties.BatchRequests` proves that the keys deleted are exactly
  the keys whose fetch and encryption succeeded. Upload results play no part.
- `HandlerProperties.BatchEndState` proves, for a whole batch, that every key
  whose delete succeeded is absent from the source at the end, whether or
  not its upload succeeded.

## Model

| member | source | states |
|---|---|---|
| `S3Client.ObjectToKeys` | src/s3_client.rs:96-102 | the keys returned are never more than the objects listed |
| `S3Client.ObjectToKeysAppend` | src/s3_client.rs:96-102 | listing order is kept: the keys of two listings joined are the keys of the first followed by the keys of the second |
| `S3Client.ObjectToKeysMembership` | src/s3_client.rs:100 | a key is returned exactly when some listed object carries it; objects without a key contribute nothing |
| `S3Client.ObjectToKeysAllKeyed` | src/s3_client.rs:98-101 | when every object has a key, there is one key per object, equal to that object's key at the same position (an empty listing gives no keys) |
| `S3Client.ObjectToKeysDropsUnkeyed` | src/s3_client.rs:100 | an object without a key makes the output strictly shorter than the listing |
| `S3Client.MessageOr` | src/s3_client.rs:86-91 | the service's message when there is one, else the given default |
| `S3Client.GetFileResult` | src/s3_client.rs:30-46 | success exactly when the request succeeded, with the downloaded bytes; on failure the service error itself |
| `S3Client.DeleteFileResult` | src/s3_client.rs:56-67 | success exactly when the request succeeded, with "Deleted a file with key {key} from {bucket}", which names both; any failure passed through unchanged |
| `S3Client.PutFileResult` | src/s3_client.rs:84-92 | success exactly when the request succeeded, with "Uploaded a file with key {key} into {bucket}", which names both; on failure the service's message, or "Unknown upload error" when there is none |
| `S3Client.ListFilesResult` | src/s3_client.rs:110-118 | success exactly when the request succeeded, with exactly `ObjectToKeys` of the response; on failure the service's message, or "Unknown bucket access error" when there is none |
| `Store.GetOutcome` | src/s3_client.rs:28-35 | the get request succeeds exactly when the plan injects no error and the object exists, and then returns the stored bytes |
| `Store.ObjectStore.ListFiles` | src/s3_client.rs:104-120 | `ListFiles::list_files`: objects unchanged, one listing request recorded, result as `ListFilesResult` of the plan's response |
| `Store.ObjectStore.GetFile` | src/s3_client.rs:24-48 | `GetFile::get_file`: objects unchanged, one get request recorded, result as `GetFileResult` |
| `Store.ObjectStore.PutFile` | src/s3_client.rs:72-94 | `PutFile::put_file`: one put request recorded; when the result is Ok the body is stored under (bucket, key), otherwise the objects are unchanged |
| `Store.ObjectStore.DeleteFile` | src/s3_client.rs:50-70 | `DeleteFile::delete_file`: one delete request recorded; when the result is Ok (bucket, key) is removed, otherwise the objects are unchanged |
| `Hex.Encode` | src/main.rs:96-97 | two lowercase hex digits per byte |
| `Hex.DecodeEncode` | src/main.rs:96-97 | decoding the hex text gives back the bytes |
| `Hex.EncodeDecode` | src/main.rs:96-97 | every text that decodes is the encoding of what it decodes to, so the encoding loses nothing |
| `Handler.EncryptedBucket` | src/main.rs:73-74 | the destination is the source name followed by "-encrypted", never the source itself |
| `Handler.GetEncryptedFile` | src/main.rs:135-147 | success exactly when the cipher succeeds on (file, key, nonce), with its ciphertext; on failure the cipher's error after "Encrypting small file: " |
| `Handler.FailureMessageOmitsHex` | src/main.rs:100-101 | the failure message contains no run of 48 or more hex digits, so it cannot contain the hex key or nonce |
| `Handler.BatchMessage` | src/main.rs:93-102 | the body contains the hex-encoded key and the hex-encoded nonce if and only if no error was encountered |
| `Handler.ProcessKeyEffect` | src/main.rs:47-91 | one iteration: a get, then (if the fetch and encryption succeed) a put of the ciphertext under the same key to "-encrypted" and a delete from the source, whatever the put returned; fetch fails exactly when the plan fails it or the object is missing; encryption fails exactly as the cipher does; on early failure the objects are untouched; otherwise the objects change by the successful put and the successful delete only |
| `Handler.ProcessKeysEffect` | src/main.rs:47-91 | one outcome per listed key; the requests are each key's requests in listing order; every ciphertext is the cipher's output under the invocation's one key and nonce |
| `Handler.AnyFailedSnoc` | src/main.rs:46-91 | the error flag after one more key is the old flag or that key's failure: it starts false and is only ever set |
| `Handler.Handle` | src/main.rs:38-109 | a failed listing returns the listing error after the listing request alone, with no get, put or delete and the objects unchanged; otherwise status 200; the request record only grows |
| `Handler.FunctionHandler` | src/main.rs:25-110 | the loop with its `continue`s and error flag ends in exactly the store, request record and response that `Handle` gives |
| `Handler.GetFileProps` | src/main.rs:112-133 | Ok(bucket, key) exactly when the event name starts with "ObjectCreated" and the bucket and key are present and non-empty; otherwise "Wrong event", then "No bucket name", then "No object key", each exactly when the earlier checks pass and its own fails |
| `HandlerProperties.CallsForKeys` | src/main.rs:48-90 | one iteration fetches its key once, and uploads and deletes it exactly when the fetch and encryption succeeded |
| `HandlerProperties.BatchRequests` | src/main.rs:47-91 | in a batch the keys fetched are exactly the batch keys, in order, each once, whatever happened to other keys; the keys uploaded and the keys deleted are both exactly those whose fetch and encryption succeeded |
| `HandlerProperties.BatchRequestsAddressed` | src/main.rs:73-90 | every get and delete goes to the source bucket and every put to the "-encrypted" bucket; no listing happens inside the batch |
| `HandlerProperties.HandlerProcessesEveryListedKey` | src/main.rs:38-91 | after a successful listing: the listing request comes first, then every listed key is fetched exactly once in listing order, uploads and deletes name the same keys in the same order, and every request goes to the intended bucket |
| `HandlerProperties.HandlerRevealsMaterialIffNoFailure` | src/main.rs:93-109 | after a successful listing the status is 200, and the body names the hex key and nonce if and only if no stage failed for any key |
| `HandlerProperties.EmptyListingSucceeds` | src/main.rs:46-98 | an empty listing makes no request after the listing, leaves the objects alone and returns the success message |
| `HandlerProperties.FailedUploadStillDeletesSource` | src/main.rs:76-90 | when the upload fails and the delete succeeds, the delete is still sent and the plaintext is removed, and no object in the "-encrypted" bucket changes |
| `HandlerProperties.SourceNeverGains` | src/main.rs:73-90 | a batch never adds an object to the source bucket, so an object missing there stays missing |
| `HandlerProperties.DestinationKept` | src/main.rs:76-90 | an object in the "-encrypted" bucket keeps its bytes through a batch unless that same key is uploaded again successfully |
| `HandlerProperties.BatchEndState` | src/main.rs:47-91 | at the end of a batch, every key whose delete succeeded is absent from the source bucket, whatever its upload did; every key whose upload succeeded (and was not uploaded again later in the batch) holds its ciphertext in the "-encrypted" bucket |
| `HandlerProperties.EarlyFailureSkipsRemainingStages` | src/main.rs:48-64 | a failed fetch or a failed encryption leaves only the get request and the objects untouched, and marks the key as failed |
| `HandlerProperties.TwoKeyExample` | src/main.rs:38-102 | "a.txt" present and "b.txt" missing: "a.txt" is encrypted into "-encrypted" and removed from the source, and the response is the failure message |

## Left out

- The OsRng random source (src/main.rs:31-34): the key and the nonce are parameters of exactly 32 and 24 bytes. Randomness and uniqueness across invocations cannot be stated here. That the one pair serves the whole batch is modelled: one `Material` value per invocation.
- XChaCha20-Poly1305 itself: the cipher is an uninterpreted, possibly failing function parameter. No ciphertext length and no decryption round trip are claimed, because the code states neither.
- The AWS SDK requests and `body.collect().await.unwrap()` (src/s3_client.rs:28-32): they are replaced by the in-memory store and the `Backend` plan. The listing response, including its order and its single page of at most 1000 keys, comes from the plan. The panic of `unwrap` is not modelled. Bucket existence is not modelled: a put or delete fails only when the plan says so.
- The SDK error types: a `ServiceError` is reduced to its optional message.
- `dotenv` and `BUCKET_NAME` (src/main.rs:29, 36): the bucket is a parameter. A missing variable is a panic in the code and is not modelled.
- `tracing` logging, the tokio runtime, `lambda_http` and `main` (src/main.rs:149-169): not modelled. Of the response only the status and the body are kept. The `content-type` header and the builder's `map_err` (src/main.rs:104-108) are left out; the builder cannot fail with these inputs.
- `e.into()` on a listing error (src/main.rs:42): the boxed error is modelled as its message string.
- `hex::encode`: modelled as lowercase base-16, which is what that crate produces.
- src/lib.rs: it only repeats two of the wrappers of src/s3_client.rs.
- A per-event handler is not part of this model. `get_file_props` is modelled by itself, since no code shown calls it.
- Concurrency: there is none. The loop is sequential and the model is sequential.
