/** The pure parts of the storage wrappers in src/s3_client.rs: turning a
    bucket listing into keys, and turning the outcome of an SDK request into
    the `Result` that the handler sees. The requests themselves are modelled
    by the Store module. */
module S3Client {
  import opened Common

  /** The error the storage service answers with; it may or may not carry a message. */
  datatype ServiceError = ServiceError(message: Option<string>)

  /** What an SDK request comes back with: its output, or a service error. */
  datatype SdkOutcome<+T> = Sent(output: T) | Failed(error: ServiceError)

  /** One entry of a ListObjectsV2 response; the service may omit its key. */
  datatype S3Object = S3Object(key: Option<string>)

  const UnknownUploadError: string := "Unknown upload error"
  const UnknownBucketAccessError: string := "Unknown bucket access error"

  /** The keys of the listed objects, in listing order; objects without a key are dropped. */
  function ObjectToKeys(objects: seq<S3Object>): (keys: seq<string>)
    ensures |keys| <= |objects|
  {
    if objects == [] then []
    else
      (match objects[0].key
       case Some(k) => [k]
       case None => [])
      + ObjectToKeys(objects[1..])
  }

  /** Listing order is kept: the keys of two listings one after the other are
      the keys of the first followed by the keys of the second. */
  lemma {:induction false} ObjectToKeysAppend(a: seq<S3Object>, b: seq<S3Object>)
    ensures ObjectToKeys(a + b) == ObjectToKeys(a) + ObjectToKeys(b)
  {
    if a == [] {
      assert a + b == b;
    } else {
      assert (a + b)[0] == a[0];
      assert (a + b)[1..] == a[1..] + b;
      ObjectToKeysAppend(a[1..], b);
    }
  }

  /** A key is returned exactly when some listed object carries it. */
  lemma {:induction false} ObjectToKeysMembership(objects: seq<S3Object>, k: string)
    ensures k in ObjectToKeys(objects) <==> S3Object(Some(k)) in objects
  {
    if objects != [] {
      ObjectToKeysMembership(objects[1..], k);
      assert objects == [objects[0]] + objects[1..];
    }
  }

  /** When every object has a key, the output is exactly those keys, one per object. */
  lemma {:induction false} ObjectToKeysAllKeyed(objects: seq<S3Object>)
    requires forall i :: 0 <= i < |objects| ==> objects[i].key.Some?
    ensures |ObjectToKeys(objects)| == |objects|
    ensures forall i :: 0 <= i < |objects| ==> ObjectToKeys(objects)[i] == objects[i].key.value
  {
    if objects != [] {
      ObjectToKeysAllKeyed(objects[1..]);
    }
  }

  /** An object without a key makes the output strictly shorter than the listing. */
  lemma {:induction false} ObjectToKeysDropsUnkeyed(objects: seq<S3Object>, i: nat)
    requires i < |objects| && objects[i].key.None?
    ensures |ObjectToKeys(objects)| < |objects|
  {
    if i > 0 {
      ObjectToKeysDropsUnkeyed(objects[1..], i - 1);
    }
  }

  /** The service's message, or the given text when the service sent none. */
  function MessageOr(e: ServiceError, default: string): (m: string)
    ensures e.message.Some? ==> m == e.message.value
    ensures e.message.None? ==> m == default
  {
    match e.message
    case Some(msg) => msg
    case None => default
  }

  /** `get_file`: the object's bytes, or the service error itself. */
  function GetFileResult(outcome: SdkOutcome<Bytes>): (r: Result<Bytes, ServiceError>)
    ensures r.Ok? <==> outcome.Sent?
    ensures r.Ok? ==> r.value == outcome.output
    ensures r.Err? ==> r.error == outcome.error
  {
    match outcome
    case Sent(bytes) => Ok(bytes)
    case Failed(e) => Err(e)
  }

  function DeletedMessage(bucket: string, key: string): string
  {
    "Deleted a file with key " + key + " from " + bucket
  }

  function UploadedMessage(bucket: string, key: string): string
  {
    "Uploaded a file with key " + key + " into " + bucket
  }

  /** `delete_file`: a message naming the key and the bucket, or the service error passed through. */
  function DeleteFileResult(outcome: SdkOutcome<()>, bucket: string, key: string): (r: Result<string, ServiceError>)
    ensures r.Ok? <==> outcome.Sent?
    ensures r.Ok? ==> r.value == DeletedMessage(bucket, key) && Contains(r.value, key) && Contains(r.value, bucket)
    ensures r.Err? ==> r.error == outcome.error
  {
    match outcome
    case Sent(_) =>
      ContainsMiddle("Deleted a file with key ", key, " from " + bucket);
      assert "Deleted a file with key " + key + (" from " + bucket) == DeletedMessage(bucket, key);
      ContainsSuffix(DeletedMessage(bucket, key), bucket);
      Ok(DeletedMessage(bucket, key))
    case Failed(e) => Err(e)
  }

  /** `put_file`: a message naming the key and the bucket, or the service's
      message, or "Unknown upload error" when the service gave none. */
  function PutFileResult(outcome: SdkOutcome<()>, bucket: string, key: string): (r: Result<string, string>)
    ensures r.Ok? <==> outcome.Sent?
    ensures r.Ok? ==> r.value == UploadedMessage(bucket, key) && Contains(r.value, key) && Contains(r.value, bucket)
    ensures r.Err? && outcome.error.message.Some? ==> r.error == outcome.error.message.value
    ensures r.Err? && outcome.error.message.None? ==> r.error == UnknownUploadError
  {
    match outcome
    case Sent(_) =>
      ContainsMiddle("Uploaded a file with key ", key, " into " + bucket);
      assert "Uploaded a file with key " + key + (" into " + bucket) == UploadedMessage(bucket, key);
      ContainsSuffix(UploadedMessage(bucket, key), bucket);
      Ok(UploadedMessage(bucket, key))
    case Failed(e) => Err(MessageOr(e, UnknownUploadError))
  }

  /** `list_files`: exactly the keys of the listing, or the service's message,
      or "Unknown bucket access error" when the service gave none. */
  function ListFilesResult(outcome: SdkOutcome<seq<S3Object>>): (r: Result<seq<string>, string>)
    ensures r.Ok? <==> outcome.Sent?
    ensures r.Ok? ==> r.value == ObjectToKeys(outcome.output)
    ensures r.Err? && outcome.error.message.Some? ==> r.error == outcome.error.message.value
    ensures r.Err? && outcome.error.message.None? ==> r.error == UnknownBucketAccessError
  {
    match outcome
    case Sent(objects) => Ok(ObjectToKeys(objects))
    case Failed(e) => Err(MessageOr(e, UnknownBucketAccessError))
  }
}
