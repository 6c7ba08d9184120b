/** What the handler of src/main.rs guarantees over a whole invocation,
    stated on the record of storage requests and on the response. */
module HandlerProperties {
  import opened Common
  import Hex
  import opened S3Client
  import opened Store
  import opened Handler

  datatype RequestKind = Fetch | Upload | Removal

  predicate IsKind(c: Call, kind: RequestKind)
  {
    match kind
    case Fetch => c.GetCall?
    case Upload => c.PutCall?
    case Removal => c.DeleteCall?
  }

  /** The keys of the requests of one kind, in the order they were made. */
  function KeysOf(trace: seq<Call>, kind: RequestKind): seq<string>
  {
    if trace == [] then []
    else (if IsKind(trace[0], kind) then [trace[0].key] else []) + KeysOf(trace[1..], kind)
  }

  lemma {:induction false} KeysOfAppend(a: seq<Call>, b: seq<Call>, kind: RequestKind)
    ensures KeysOf(a + b, kind) == KeysOf(a, kind) + KeysOf(b, kind)
  {
    if a == [] {
      assert a + b == b;
    } else {
      assert (a + b)[0] == a[0];
      assert (a + b)[1..] == a[1..] + b;
      KeysOfAppend(a[1..], b, kind);
    }
  }

  /** The keys whose object was fetched and encrypted, in batch order. */
  function AttemptedKeys(keys: seq<string>, outcomes: seq<KeyOutcome>): seq<string>
    requires |keys| == |outcomes|
  {
    if keys == [] then []
    else (if outcomes[0].Attempted? then [keys[0]] else []) + AttemptedKeys(keys[1..], outcomes[1..])
  }

  /** Each request of a batch goes where the handler sends it: gets and
      deletes to the source bucket, puts to the "-encrypted" bucket, and no listing. */
  predicate Addressed(c: Call, bucket: string)
  {
    match c
    case ListCall(_) => false
    case GetCall(b, _) => b == bucket
    case PutCall(b, _, _) => b == EncryptedBucket(bucket)
    case DeleteCall(b, _) => b == bucket
  }

  /** The keys that one iteration's requests name, by kind. */
  lemma CallsForKeys(bucket: string, key: string, o: KeyOutcome, kind: RequestKind)
    ensures KeysOf(CallsFor(bucket, key, o), kind) == if kind == Fetch || o.Attempted? then [key] else []
  {
    var cs := CallsFor(bucket, key, o);
    if o.Attempted? {
      assert cs[1..][1..][1..] == [];
      assert KeysOf(cs[1..][1..], kind) == if kind == Removal then [key] else [];
      assert KeysOf(cs[1..], kind) == if kind != Fetch then [key] else [];
    } else {
      assert cs[1..] == [];
    }
  }

  /** In a batch every key is fetched exactly once, in batch order, whatever
      happened to the other keys; the keys uploaded and the keys deleted are
      both exactly those whose fetch and encryption succeeded, so a delete
      follows every upload, failed or not. */
  lemma {:induction false} BatchRequests(bucket: string, keys: seq<string>, outcomes: seq<KeyOutcome>, kind: RequestKind)
    requires |keys| == |outcomes|
    ensures KeysOf(BatchCalls(bucket, keys, outcomes), kind)
         == if kind == Fetch then keys else AttemptedKeys(keys, outcomes)
  {
    if keys != [] {
      var head := CallsFor(bucket, keys[0], outcomes[0]);
      var tail := BatchCalls(bucket, keys[1..], outcomes[1..]);
      BatchRequests(bucket, keys[1..], outcomes[1..], kind);
      CallsForKeys(bucket, keys[0], outcomes[0], kind);
      KeysOfAppend(head, tail, kind);
      assert keys == [keys[0]] + keys[1..];
    }
  }

  /** Every request of a batch goes to the bucket the handler intends. */
  lemma {:induction false} BatchRequestsAddressed(bucket: string, keys: seq<string>, outcomes: seq<KeyOutcome>)
    requires |keys| == |outcomes|
    ensures forall j :: 0 <= j < |BatchCalls(bucket, keys, outcomes)| ==>
              Addressed(BatchCalls(bucket, keys, outcomes)[j], bucket)
  {
    if keys != [] {
      var head := CallsFor(bucket, keys[0], outcomes[0]);
      var tail := BatchCalls(bucket, keys[1..], outcomes[1..]);
      BatchRequestsAddressed(bucket, keys[1..], outcomes[1..]);
      var all := head + tail;
      forall j | 0 <= j < |all| ensures Addressed(all[j], bucket) {
        if j >= |head| {
          assert all[j] == tail[j - |head|];
        }
      }
    }
  }

  /** After a successful listing, the handler makes the listing request and
      then processes the listed keys: each is fetched exactly once, in
      listing order; uploads and deletes name the same keys in the same
      order; and every request goes to the bucket the handler intends. */
  lemma HandlerProcessesEveryListedKey(w: World, backend: Backend, inv: Invocation)
    requires backend.listing(|w.trace|).Sent?
    ensures var s := Handle(w, backend, inv);
      var keys := ObjectToKeys(backend.listing(|w.trace|).output);
      var later := s.world.trace[|w.trace| + 1..];
      && s.world.trace[..|w.trace| + 1] == w.trace + [ListCall(inv.bucket)]
      && KeysOf(later, Fetch) == keys
      && KeysOf(later, Upload) == KeysOf(later, Removal)
      && forall j :: 0 <= j < |later| ==> Addressed(later[j], inv.bucket)
  {
    var listed := ListStep(w, backend, inv.bucket);
    var keys := listed.result.value;
    var run := ProcessKeys(listed.world, backend, inv, keys);
    ProcessKeysEffect(listed.world, backend, inv, keys);
    BatchRequests(inv.bucket, keys, run.result, Fetch);
    BatchRequests(inv.bucket, keys, run.result, Upload);
    BatchRequests(inv.bucket, keys, run.result, Removal);
    BatchRequestsAddressed(inv.bucket, keys, run.result);
    var s := Handle(w, backend, inv);
    assert s.world == run.world;
    assert s.world.trace[|w.trace| + 1..] == BatchCalls(inv.bucket, keys, run.result);
  }

  /** After a successful listing, the response has status 200, and its body
      contains the hex-encoded key and nonce if and only if no stage failed
      for any key. */
  lemma HandlerRevealsMaterialIffNoFailure(w: World, backend: Backend, inv: Invocation)
    requires backend.listing(|w.trace|).Sent?
    ensures var s := Handle(w, backend, inv);
      var keys := ObjectToKeys(backend.listing(|w.trace|).output);
      var run := ProcessKeys(ListStep(w, backend, inv.bucket).world, backend, inv, keys);
      && s.world == run.world
      && s.result.Ok? && s.result.value.status == 200
      && (Contains(s.result.value.body, Hex.Encode(inv.material.encKey))
          && Contains(s.result.value.body, Hex.Encode(inv.material.nonce))
          <==> forall i :: 0 <= i < |run.result| ==> !StageFailed(run.result[i]))
  {
  }

  /** An empty listing: nothing but the listing request, and the success message. */
  lemma EmptyListingSucceeds(w: World, backend: Backend, inv: Invocation)
    requires backend.listing(|w.trace|).Sent?
    requires ObjectToKeys(backend.listing(|w.trace|).output) == []
    ensures Handle(w, backend, inv)
         == Step(World(w.objects, w.trace + [ListCall(inv.bucket)]), Ok(Response(200, SuccessMessage(inv.material))))
  {
    var listed := ListStep(w, backend, inv.bucket);
    assert ProcessKeys(listed.world, backend, inv, []) == Step(listed.world, []);
    assert !AnyFailed([]);
  }

  /** The handler does not make the delete depend on the upload: when the
      upload fails and the delete succeeds, the plaintext object is removed
      from the source bucket while nothing in the "-encrypted" bucket changed. */
  lemma FailedUploadStillDeletesSource(w: World, backend: Backend, inv: Invocation, key: string)
    requires backend.getFault(|w.trace|).None? && ObjectId(inv.bucket, key) in w.objects
    requires inv.cipher(w.objects[ObjectId(inv.bucket, key)], inv.material.encKey, inv.material.nonce).Ok?
    requires backend.putFault(|w.trace| + 1).Some?
    requires backend.deleteFault(|w.trace| + 2).None?
    ensures var s := ProcessKey(w, backend, inv, key);
      && s.result.Attempted? && s.result.upload.Err? && s.result.removal.Ok?
      && s.world.trace[|w.trace| + 2] == DeleteCall(inv.bucket, key)
      && ObjectId(inv.bucket, key) !in s.world.objects
      && forall id: ObjectId :: id.bucket == EncryptedBucket(inv.bucket) ==>
           (id in s.world.objects <==> id in w.objects)
           && (id in w.objects ==> s.world.objects[id] == w.objects[id])
  {
    ProcessKeyEffect(w, backend, inv, key);
  }

  /** A batch never adds an object to the source bucket: puts go only to the
      "-encrypted" bucket. So an object missing from the source stays missing. */
  lemma {:induction false} SourceNeverGains(w: World, backend: Backend, inv: Invocation, keys: seq<string>, key: string)
    requires ObjectId(inv.bucket, key) !in w.objects
    ensures ObjectId(inv.bucket, key) !in ProcessKeys(w, backend, inv, keys).world.objects
    decreases |keys|
  {
    if keys != [] {
      var first := ProcessKey(w, backend, inv, keys[0]);
      ProcessKeyEffect(w, backend, inv, keys[0]);
      assert ObjectId(EncryptedBucket(inv.bucket), keys[0]) != ObjectId(inv.bucket, key);
      SourceNeverGains(first.world, backend, inv, keys[1..], key);
    }
  }

  /** A batch changes a key's object in the "-encrypted" bucket only by a
      successful upload of that key: deletes touch only the source bucket. */
  lemma {:induction false} DestinationKept(w: World, backend: Backend, inv: Invocation, keys: seq<string>, key: string, c: Bytes)
    requires ObjectId(EncryptedBucket(inv.bucket), key) in w.objects
    requires w.objects[ObjectId(EncryptedBucket(inv.bucket), key)] == c
    requires forall j :: 0 <= j < |keys| && keys[j] == key ==>
               var r := ProcessKeys(w, backend, inv, keys).result;
               |r| == |keys| && !(r[j].Attempted? && r[j].upload.Ok?)
    ensures var r := ProcessKeys(w, backend, inv, keys).world.objects;
            ObjectId(EncryptedBucket(inv.bucket), key) in r && r[ObjectId(EncryptedBucket(inv.bucket), key)] == c
    decreases |keys|
  {
    if keys != [] {
      var dest := ObjectId(EncryptedBucket(inv.bucket), key);
      var first := ProcessKey(w, backend, inv, keys[0]);
      var rest := ProcessKeys(first.world, backend, inv, keys[1..]);
      ProcessKeyEffect(w, backend, inv, keys[0]);
      ProcessKeysEffect(first.world, backend, inv, keys[1..]);
      var all := ProcessKeys(w, backend, inv, keys).result;
      assert all == [first.result] + rest.result;
      assert ObjectId(inv.bucket, keys[0]) != dest;
      if keys[0] == key {
        assert !(all[0].Attempted? && all[0].upload.Ok?);
      }
      assert first.world.objects.Keys >= {dest} && first.world.objects[dest] == c;
      forall j | 0 <= j < |keys[1..]| && keys[1..][j] == key
        ensures var r := ProcessKeys(first.world, backend, inv, keys[1..]).result;
                |r| == |keys[1..]| && !(r[j].Attempted? && r[j].upload.Ok?)
      {
        assert keys[j + 1] == key && all[j + 1] == rest.result[j];
      }
      DestinationKept(first.world, backend, inv, keys[1..], key, c);
    }
  }

  /** The end state of a batch: every key whose delete succeeded is gone
      from the source bucket, whatever its upload did; and every key whose
      upload succeeded holds its ciphertext in the "-encrypted" bucket,
      unless a later occurrence of the same key in the batch uploaded again. */
  lemma {:induction false} BatchEndState(w: World, backend: Backend, inv: Invocation, keys: seq<string>)
    ensures var s := ProcessKeys(w, backend, inv, keys);
      |s.result| == |keys|
      && forall i :: 0 <= i < |keys| && s.result[i].Attempted? ==>
           (s.result[i].removal.Ok? ==> ObjectId(inv.bucket, keys[i]) !in s.world.objects)
           && (s.result[i].upload.Ok?
               && (forall j :: i < j < |keys| && keys[j] == keys[i] ==>
                     !(s.result[j].Attempted? && s.result[j].upload.Ok?))
               ==> ObjectId(EncryptedBucket(inv.bucket), keys[i]) in s.world.objects
                   && s.world.objects[ObjectId(EncryptedBucket(inv.bucket), keys[i])] == s.result[i].ciphertext)
    decreases |keys|
  {
    ProcessKeysEffect(w, backend, inv, keys);
    if keys != [] {
      var first := ProcessKey(w, backend, inv, keys[0]);
      var rest := ProcessKeys(first.world, backend, inv, keys[1..]);
      ProcessKeyEffect(w, backend, inv, keys[0]);
      ProcessKeysEffect(first.world, backend, inv, keys[1..]);
      BatchEndState(first.world, backend, inv, keys[1..]);
      var s := ProcessKeys(w, backend, inv, keys);
      assert s == Step(rest.world, [first.result] + rest.result);
      forall i | 0 <= i < |keys| && s.result[i].Attempted?
        ensures (s.result[i].removal.Ok? ==> ObjectId(inv.bucket, keys[i]) !in s.world.objects)
           && (s.result[i].upload.Ok?
               && (forall j :: i < j < |keys| && keys[j] == keys[i] ==>
                     !(s.result[j].Attempted? && s.result[j].upload.Ok?))
               ==> ObjectId(EncryptedBucket(inv.bucket), keys[i]) in s.world.objects
                   && s.world.objects[ObjectId(EncryptedBucket(inv.bucket), keys[i])] == s.result[i].ciphertext)
      {
        if i == 0 {
          if first.result.removal.Ok? {
            SourceNeverGains(first.world, backend, inv, keys[1..], keys[0]);
          }
          if first.result.upload.Ok?
             && (forall j :: 0 < j < |keys| && keys[j] == keys[0] ==>
                   !(s.result[j].Attempted? && s.result[j].upload.Ok?))
          {
            var dest := ObjectId(EncryptedBucket(inv.bucket), keys[0]);
            assert dest != ObjectId(inv.bucket, keys[0]);
            assert first.world.objects.Keys >= {dest};
            forall j | 0 <= j < |keys[1..]| && keys[1..][j] == keys[0]
              ensures var r := ProcessKeys(first.world, backend, inv, keys[1..]).result;
                      |r| == |keys[1..]| && !(r[j].Attempted? && r[j].upload.Ok?)
            {
              assert keys[j + 1] == keys[0] && s.result[j + 1] == rest.result[j];
            }
            DestinationKept(first.world, backend, inv, keys[1..], keys[0], first.result.ciphertext);
          }
        } else {
          assert s.result[i] == rest.result[i - 1] && keys[i] == keys[1..][i - 1];
          if s.result[i].upload.Ok?
             && (forall j :: i < j < |keys| && keys[j] == keys[i] ==>
                   !(s.result[j].Attempted? && s.result[j].upload.Ok?))
          {
            forall j | i - 1 < j < |keys[1..]| && keys[1..][j] == keys[1..][i - 1]
              ensures !(rest.result[j].Attempted? && rest.result[j].upload.Ok?)
            {
              assert keys[j + 1] == keys[i] && s.result[j + 1] == rest.result[j];
            }
          }
        }
      }
    }
  }

  /** A failed fetch or a failed encryption ends that key's iteration after
      its one get request, with the objects untouched; the error flag is set. */
  lemma EarlyFailureSkipsRemainingStages(w: World, backend: Backend, inv: Invocation, key: string)
    requires backend.getFault(|w.trace|).Some? || ObjectId(inv.bucket, key) !in w.objects
             || inv.cipher(w.objects[ObjectId(inv.bucket, key)], inv.material.encKey, inv.material.nonce).Err?
    ensures var s := ProcessKey(w, backend, inv, key);
      && s.world == World(w.objects, w.trace + [GetCall(inv.bucket, key)])
      && StageFailed(s.result)
  {
    ProcessKeyEffect(w, backend, inv, key);
  }

  /** The two-object example: "a.txt" holds "hello", "b.txt" is missing and
      no request is made to fail. Then "a.txt" is encrypted, stored in the
      "-encrypted" bucket and removed from the source, "b.txt" fails to
      fetch, and the response is the failure message. */
  lemma TwoKeyExample(inv: Invocation, ciphertext: Bytes)
    requires inv.cipher([104, 101, 108, 108, 111], inv.material.encKey, inv.material.nonce) == Ok(ciphertext)
    ensures var source := ObjectId(inv.bucket, "a.txt");
      var backend := Backend(
        n => Sent([S3Object(Some("a.txt")), S3Object(Some("b.txt"))]),
        n => None, n => None, n => None);
      var s := Handle(World(map[source := [104, 101, 108, 108, 111]], []), backend, inv);
      && s.result == Ok(Response(200, FailureMessage))
      && s.world.objects == map[ObjectId(EncryptedBucket(inv.bucket), "a.txt") := ciphertext]
  {
    var source := ObjectId(inv.bucket, "a.txt");
    var dest := ObjectId(EncryptedBucket(inv.bucket), "a.txt");
    var backend := Backend(
      n => Sent([S3Object(Some("a.txt")), S3Object(Some("b.txt"))]),
      n => None, n => None, n => None);
    var w0 := World(map[source := [104, 101, 108, 108, 111]], []);
    var listed := ListStep(w0, backend, inv.bucket);
    var keys := ["a.txt", "b.txt"];
    var listing := [S3Object(Some("a.txt")), S3Object(Some("b.txt"))];
    ObjectToKeysAllKeyed(listing);
    assert ObjectToKeys(listing) == keys;
    assert listed.result == Ok(keys);
    var first := ProcessKey(listed.world, backend, inv, "a.txt");
    ProcessKeyEffect(listed.world, backend, inv, "a.txt");
    assert first.result.Attempted? && !StageFailed(first.result);
    assert first.world.objects == map[dest := ciphertext] by {
      assert dest != source;
    }
    var second := ProcessKey(first.world, backend, inv, "b.txt");
    ProcessKeyEffect(first.world, backend, inv, "b.txt");
    assert ObjectId(inv.bucket, "b.txt") !in first.world.objects;
    assert second.result.FetchFailed?;
    assert keys[1..] == ["b.txt"] && keys[1..][1..] == [];
    assert ProcessKeys(second.world, backend, inv, []) == Step(second.world, []);
    var single: seq<string> := ["b.txt"];
    assert single[0] == "b.txt" && single[1..] == [];
    assert [second.result] + [] == [second.result];
    assert ProcessKeys(first.world, backend, inv, single) == Step(second.world, [second.result]);
    assert keys[0] == "a.txt" && keys[1..] == single;
    var run := ProcessKeys(listed.world, backend, inv, keys);
    assert run == Step(second.world, [first.result] + [second.result]);
    assert [first.result] + [second.result] == [first.result, second.result];
    assert AnyFailed(run.result) by {
      assert StageFailed(run.result[1]);
    }
  }
}
