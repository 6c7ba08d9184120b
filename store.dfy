/** The storage backend behind the four capabilities GetFile, DeleteFile,
    PutFile and ListFiles of src/s3_client.rs: an in-memory map from
    (bucket, key) to bytes, a plan that decides which request the service
    fails, and a record of every request made, in order. */
module Store {
  import opened Common
  import opened S3Client

  datatype ObjectId = ObjectId(bucket: string, key: string)

  /** One request sent to the storage service. */
  datatype Call =
    | ListCall(bucket: string)
    | GetCall(bucket: string, key: string)
    | PutCall(bucket: string, key: string, body: Bytes)
    | DeleteCall(bucket: string, key: string)

  /** What the service holds and which requests it has received so far. */
  datatype World = World(objects: map<ObjectId, Bytes>, trace: seq<Call>)

  /** The state after a request together with the request's result. */
  datatype Step<+T> = Step(world: World, result: T)

  /** The service's behaviour that the model does not fix: the response to
      each listing, and the error (if any) for each get, put and delete.
      Each is indexed by the request's position among all requests. */
  datatype Backend = Backend(
    listing: nat -> SdkOutcome<seq<S3Object>>,
    getFault: nat -> Option<ServiceError>,
    putFault: nat -> Option<ServiceError>,
    deleteFault: nat -> Option<ServiceError>)

  /** The error for reading an object that does not exist. */
  const NoSuchKey: ServiceError := ServiceError(Some("The specified key does not exist."))

  function GetOutcome(objects: map<ObjectId, Bytes>, backend: Backend, n: nat, id: ObjectId): (o: SdkOutcome<Bytes>)
    ensures o.Sent? <==> backend.getFault(n).None? && id in objects
    ensures o.Sent? ==> o.output == objects[id]
  {
    match backend.getFault(n)
    case Some(e) => Failed(e)
    case None => if id in objects then Sent(objects[id]) else Failed(NoSuchKey)
  }

  function FaultOutcome(fault: Option<ServiceError>): (o: SdkOutcome<()>)
    ensures o.Sent? <==> fault.None?
    ensures o.Failed? ==> o.error == fault.value
  {
    match fault
    case Some(e) => Failed(e)
    case None => Sent(())
  }

  function ListStep(w: World, backend: Backend, bucket: string): Step<Result<seq<string>, string>>
  {
    Step(World(w.objects, w.trace + [ListCall(bucket)]), ListFilesResult(backend.listing(|w.trace|)))
  }

  function GetStep(w: World, backend: Backend, bucket: string, key: string): Step<Result<Bytes, ServiceError>>
  {
    Step(World(w.objects, w.trace + [GetCall(bucket, key)]),
         GetFileResult(GetOutcome(w.objects, backend, |w.trace|, ObjectId(bucket, key))))
  }

  function PutStep(w: World, backend: Backend, bucket: string, key: string, body: Bytes): Step<Result<string, string>>
  {
    var outcome := FaultOutcome(backend.putFault(|w.trace|));
    var objects := if outcome.Sent? then w.objects[ObjectId(bucket, key) := body] else w.objects;
    Step(World(objects, w.trace + [PutCall(bucket, key, body)]), PutFileResult(outcome, bucket, key))
  }

  function DeleteStep(w: World, backend: Backend, bucket: string, key: string): Step<Result<string, ServiceError>>
  {
    var outcome := FaultOutcome(backend.deleteFault(|w.trace|));
    var objects := if outcome.Sent? then w.objects - {ObjectId(bucket, key)} else w.objects;
    Step(World(objects, w.trace + [DeleteCall(bucket, key)]), DeleteFileResult(outcome, bucket, key))
  }

  /** The storage client the handler is given. Every request appends itself
      to `trace`; `calls` counts the requests so that the backend's plan
      can be consulted. */
  class ObjectStore {
    var objects: map<ObjectId, Bytes>
    var calls: nat
    ghost var trace: seq<Call>
    const backend: Backend

    ghost predicate Valid()
      reads this
    {
      calls == |trace|
    }

    ghost function State(): World
      reads this
    {
      World(objects, trace)
    }

    constructor (objects: map<ObjectId, Bytes>, backend: Backend)
      ensures Valid()
      ensures State() == World(objects, [])
      ensures this.backend == backend
    {
      this.objects := objects;
      this.backend := backend;
      calls := 0;
      trace := [];
    }

    /** ListFiles::list_files */
    method ListFiles(bucket: string) returns (r: Result<seq<string>, string>)
      requires Valid()
      modifies this
      ensures Valid()
      ensures objects == old(objects) && trace == old(trace) + [ListCall(bucket)]
      ensures State() == ListStep(old(State()), backend, bucket).world
      ensures r == ListStep(old(State()), backend, bucket).result
    {
      r := ListFilesResult(backend.listing(calls));
      calls, trace := calls + 1, trace + [ListCall(bucket)];
    }

    /** GetFile::get_file */
    method GetFile(bucket: string, key: string) returns (r: Result<Bytes, ServiceError>)
      requires Valid()
      modifies this
      ensures Valid()
      ensures objects == old(objects) && trace == old(trace) + [GetCall(bucket, key)]
      ensures State() == GetStep(old(State()), backend, bucket, key).world
      ensures r == GetStep(old(State()), backend, bucket, key).result
    {
      r := GetFileResult(GetOutcome(objects, backend, calls, ObjectId(bucket, key)));
      calls, trace := calls + 1, trace + [GetCall(bucket, key)];
    }

    /** PutFile::put_file: on success the object is stored under (bucket, key). */
    method PutFile(bucket: string, key: string, body: Bytes) returns (r: Result<string, string>)
      requires Valid()
      modifies this
      ensures Valid()
      ensures trace == old(trace) + [PutCall(bucket, key, body)]
      ensures objects == if r.Ok? then old(objects)[ObjectId(bucket, key) := body] else old(objects)
      ensures State() == PutStep(old(State()), backend, bucket, key, body).world
      ensures r == PutStep(old(State()), backend, bucket, key, body).result
    {
      var outcome := FaultOutcome(backend.putFault(calls));
      if outcome.Sent? {
        objects := objects[ObjectId(bucket, key) := body];
      }
      r := PutFileResult(outcome, bucket, key);
      calls, trace := calls + 1, trace + [PutCall(bucket, key, body)];
    }

    /** DeleteFile::delete_file: on success no object is left under (bucket, key). */
    method DeleteFile(bucket: string, key: string) returns (r: Result<string, ServiceError>)
      requires Valid()
      modifies this
      ensures Valid()
      ensures trace == old(trace) + [DeleteCall(bucket, key)]
      ensures objects == if r.Ok? then old(objects) - {ObjectId(bucket, key)} else old(objects)
      ensures State() == DeleteStep(old(State()), backend, bucket, key).world
      ensures r == DeleteStep(old(State()), backend, bucket, key).result
    {
      var outcome := FaultOutcome(backend.deleteFault(calls));
      if outcome.Sent? {
        objects := objects - {ObjectId(bucket, key)};
      }
      r := DeleteFileResult(outcome, bucket, key);
      calls, trace := calls + 1, trace + [DeleteCall(bucket, key)];
    }
  }
}
