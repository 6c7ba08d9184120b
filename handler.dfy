/** The batch-encryption handler of src/main.rs: list the bucket, then for
    each key get the object, encrypt it, upload the ciphertext to the
    "-encrypted" bucket and delete the original, remembering whether any
    stage failed; finally answer with one of two messages. Also the
    creation-event validator `get_file_props`. */
module Handler {
  import opened Common
  import Hex
  import opened S3Client
  import opened Store

  type Key32 = s: Bytes | |s| == 32 witness seq(32, i => 0 as byte)
  type Nonce24 = s: Bytes | |s| == 24 witness seq(24, i => 0 as byte)

  /** The key and nonce drawn once per invocation. */
  datatype Material = Material(encKey: Key32, nonce: Nonce24)

  /** The authenticated cipher (XChaCha20-Poly1305) as an uninterpreted,
      possibly failing capability: plaintext, key and nonce to ciphertext. */
  type Cipher = (Bytes, Key32, Nonce24) -> Result<Bytes, string>

  /** What one invocation works with: the source bucket, its material and the cipher. */
  datatype Invocation = Invocation(bucket: string, material: Material, cipher: Cipher)

  /** The parts of the HTTP response the handler decides. */
  datatype Response = Response(status: int, body: string)

  const EncryptedSuffix: string := "-encrypted"
  const EncryptPrefix: string := "Encrypting small file: "
  const SuccessPrefix: string := "Successfully encrypted all files with enc_key="
  const NonceLabel: string := " and nonce="
  /** Written in two halves around the space at index 42, which the proof of
      FailureMessageOmitsHex looks at. */
  const FailureMessage: string :=
    "Encountered errors while processing files!" + " " + "Please contact the developer for more details!"

  /** The bucket the ciphertext goes to: the source name followed by "-encrypted". */
  function EncryptedBucket(bucket: string): (dest: string)
    ensures |dest| == |bucket| + |EncryptedSuffix|
    ensures dest[..|bucket|] == bucket && dest[|bucket|..] == EncryptedSuffix
    ensures dest != bucket
  {
    bucket + EncryptedSuffix
  }

  /** `get_encrypted_file`: the cipher's output, or its error behind a fixed prefix. */
  function GetEncryptedFile(fileData: Bytes, encKey: Key32, nonce: Nonce24, cipher: Cipher): (r: Result<Bytes, string>)
    ensures r.Ok? <==> cipher(fileData, encKey, nonce).Ok?
    ensures r.Ok? ==> r.value == cipher(fileData, encKey, nonce).value
    ensures r.Err? ==> EncryptPrefix <= r.error && r.error[|EncryptPrefix|..] == cipher(fileData, encKey, nonce).error
  {
    match cipher(fileData, encKey, nonce)
    case Ok(encrypted) => Ok(encrypted)
    case Err(err) => Err(EncryptPrefix + err)
  }

  // ---------------------------------------------------------------------
  // The final message
  // ---------------------------------------------------------------------

  function SuccessMessage(m: Material): string
  {
    SuccessPrefix + Hex.Encode(m.encKey) + NonceLabel + Hex.Encode(m.nonce)
  }

  /** No run of 48 or more hex digits occurs in the failure message
      (every window that long covers the space at index 42). */
  lemma FailureMessageOmitsHex(h: string)
    requires |h| >= 48
    requires forall j :: 0 <= j < |h| ==> Hex.IsHexDigit(h[j])
    ensures !Contains(FailureMessage, h)
  {
    assert |FailureMessage| == 89 && FailureMessage[42] == ' ';
    forall i | 0 <= i <= |FailureMessage| - |h|
      ensures !(h <= FailureMessage[i..])
    {
      assert FailureMessage[i..][42 - i] == ' ';
      assert Hex.IsHexDigit(h[42 - i]);
    }
  }

  /** The response body: it names the hex-encoded key and nonce exactly when nothing failed. */
  function BatchMessage(failed: bool, m: Material): (msg: string)
    ensures Contains(msg, Hex.Encode(m.encKey)) && Contains(msg, Hex.Encode(m.nonce)) <==> !failed
  {
    if !failed then
      var key, nonce := Hex.Encode(m.encKey), Hex.Encode(m.nonce);
      ContainsMiddle(SuccessPrefix, key, NonceLabel + nonce);
      assert SuccessPrefix + key + (NonceLabel + nonce) == SuccessMessage(m);
      ContainsSuffix(SuccessMessage(m), nonce);
      SuccessMessage(m)
    else
      FailureMessageOmitsHex(Hex.Encode(m.encKey));
      FailureMessage
  }

  // ---------------------------------------------------------------------
  // One key
  // ---------------------------------------------------------------------

  /** How the stages went for one key. A key whose object was fetched and
      encrypted reaches both the upload and the delete, whatever the upload's result. */
  datatype KeyOutcome =
    | FetchFailed(fetchError: ServiceError)
    | EncryptFailed(encryptError: string)
    | Attempted(plaintext: Bytes, ciphertext: Bytes, upload: Result<string, string>, removal: Result<string, ServiceError>)

  /** Some stage of this key set the error flag. */
  predicate StageFailed(o: KeyOutcome)
  {
    !o.Attempted? || o.upload.Err? || o.removal.Err?
  }

  /** The storage requests made for one key, given how it went. */
  function CallsFor(bucket: string, key: string, o: KeyOutcome): seq<Call>
  {
    match o
    case Attempted(_, ciphertext, _, _) =>
      [GetCall(bucket, key), PutCall(EncryptedBucket(bucket), key, ciphertext), DeleteCall(bucket, key)]
    case _ => [GetCall(bucket, key)]
  }

  /** One iteration of the handler's loop: get, encrypt, put, delete. */
  function ProcessKey(w: World, backend: Backend, inv: Invocation, key: string): Step<KeyOutcome>
  {
    var got := GetStep(w, backend, inv.bucket, key);
    match got.result
    case Err(e) => Step(got.world, FetchFailed(e))
    case Ok(file) =>
      match GetEncryptedFile(file, inv.material.encKey, inv.material.nonce, inv.cipher)
      case Err(msg) => Step(got.world, EncryptFailed(msg))
      case Ok(encFile) =>
        var put := PutStep(got.world, backend, EncryptedBucket(inv.bucket), key, encFile);
        var del := DeleteStep(put.world, backend, inv.bucket, key);
        Step(del.world, Attempted(file, encFile, put.result, del.result))
  }

  /** What one iteration does, in terms of the store it starts from: which
      requests it makes, which stage fails, and how the objects change. A
      fetched and encrypted object is always deleted from the source unless
      the delete itself fails, whether or not its upload succeeded. */
  lemma ProcessKeyEffect(w: World, backend: Backend, inv: Invocation, key: string)
    ensures var s := ProcessKey(w, backend, inv, key);
      && s.world.trace == w.trace + CallsFor(inv.bucket, key, s.result)
      && (s.result.FetchFailed? <==>
            backend.getFault(|w.trace|).Some? || ObjectId(inv.bucket, key) !in w.objects)
      && (!s.result.FetchFailed? ==>
            var plain := w.objects[ObjectId(inv.bucket, key)];
            (s.result.EncryptFailed? <==> inv.cipher(plain, inv.material.encKey, inv.material.nonce).Err?))
      && (s.result.Attempted? ==>
            && s.result.plaintext == w.objects[ObjectId(inv.bucket, key)]
            && inv.cipher(s.result.plaintext, inv.material.encKey, inv.material.nonce) == Ok(s.result.ciphertext)
            && (s.result.upload.Ok? <==> backend.putFault(|w.trace| + 1).None?)
            && (s.result.removal.Ok? <==> backend.deleteFault(|w.trace| + 2).None?))
      && (!s.result.Attempted? ==> s.world.objects == w.objects)
      && (s.result.Attempted? ==>
            var stored := if s.result.upload.Ok?
                          then w.objects[ObjectId(EncryptedBucket(inv.bucket), key) := s.result.ciphertext]
                          else w.objects;
            s.world.objects == if s.result.removal.Ok? then stored - {ObjectId(inv.bucket, key)} else stored)
  {
  }

  // ---------------------------------------------------------------------
  // The batch
  // ---------------------------------------------------------------------

  /** The storage requests made for a batch of keys, key after key. */
  function BatchCalls(bucket: string, keys: seq<string>, outcomes: seq<KeyOutcome>): seq<Call>
    requires |keys| == |outcomes|
  {
    if keys == [] then []
    else CallsFor(bucket, keys[0], outcomes[0]) + BatchCalls(bucket, keys[1..], outcomes[1..])
  }

  /** The handler's loop over the listed keys, one outcome per key. */
  function ProcessKeys(w: World, backend: Backend, inv: Invocation, keys: seq<string>): Step<seq<KeyOutcome>>
    decreases |keys|
  {
    if keys == [] then Step(w, [])
    else
      var first := ProcessKey(w, backend, inv, keys[0]);
      var rest := ProcessKeys(first.world, backend, inv, keys[1..]);
      Step(rest.world, [first.result] + rest.result)
  }

  /** A batch yields one outcome per key and makes each key's requests in
      turn; every ciphertext is made under the invocation's single key and nonce. */
  lemma {:induction false} ProcessKeysEffect(w: World, backend: Backend, inv: Invocation, keys: seq<string>)
    ensures var s := ProcessKeys(w, backend, inv, keys);
      && |s.result| == |keys|
      && s.world.trace == w.trace + BatchCalls(inv.bucket, keys, s.result)
      && forall i :: 0 <= i < |keys| && s.result[i].Attempted? ==>
           inv.cipher(s.result[i].plaintext, inv.material.encKey, inv.material.nonce) == Ok(s.result[i].ciphertext)
    decreases |keys|
  {
    if keys != [] {
      var first := ProcessKey(w, backend, inv, keys[0]);
      var rest := ProcessKeys(first.world, backend, inv, keys[1..]);
      ProcessKeyEffect(w, backend, inv, keys[0]);
      ProcessKeysEffect(first.world, backend, inv, keys[1..]);
      var all := [first.result] + rest.result;
      assert all[0] == first.result && all[1..] == rest.result;
      forall i | 0 <= i < |keys| && all[i].Attempted?
        ensures inv.cipher(all[i].plaintext, inv.material.encKey, inv.material.nonce) == Ok(all[i].ciphertext)
      {
        if i > 0 {
          assert all[i] == rest.result[i - 1];
        }
      }
    }
  }

  /** Processing one more key extends the run by that key's iteration. */
  lemma {:induction false} ProcessKeysSnoc(w: World, backend: Backend, inv: Invocation, keys: seq<string>, key: string)
    ensures var done := ProcessKeys(w, backend, inv, keys);
            var next := ProcessKey(done.world, backend, inv, key);
            ProcessKeys(w, backend, inv, keys + [key]) == Step(next.world, done.result + [next.result])
    decreases |keys|
  {
    if keys == [] {
      var next := ProcessKey(w, backend, inv, key);
      assert keys + [key] == [key] && [key][1..] == [];
      assert ProcessKeys(w, backend, inv, keys) == Step(w, []);
      assert [] + [next.result] == [next.result] + [];
      assert ProcessKeys(next.world, backend, inv, []) == Step(next.world, []);
      assert ProcessKeys(w, backend, inv, [key]) == Step(next.world, [next.result] + []);
    } else {
      assert (keys + [key])[0] == keys[0];
      assert (keys + [key])[1..] == keys[1..] + [key];
      var first := ProcessKey(w, backend, inv, keys[0]);
      ProcessKeysSnoc(first.world, backend, inv, keys[1..], key);
      var rest := ProcessKeys(first.world, backend, inv, keys[1..]);
      var next := ProcessKey(rest.world, backend, inv, key);
      var done := ProcessKeys(w, backend, inv, keys);
      assert done == Step(rest.world, [first.result] + rest.result);
      assert ProcessKeys(w, backend, inv, keys + [key])
          == Step(next.world, [first.result] + (rest.result + [next.result]));
      assert [first.result] + (rest.result + [next.result]) == done.result + [next.result];
    }
  }

  /** Some key of the batch had a failing stage. */
  predicate AnyFailed(outcomes: seq<KeyOutcome>)
  {
    exists i :: 0 <= i < |outcomes| && StageFailed(outcomes[i])
  }

  lemma AnyFailedSnoc(outcomes: seq<KeyOutcome>, o: KeyOutcome)
    ensures AnyFailed(outcomes + [o]) <==> AnyFailed(outcomes) || StageFailed(o)
  {
    var all := outcomes + [o];
    if AnyFailed(outcomes) {
      var i :| 0 <= i < |outcomes| && StageFailed(outcomes[i]);
      assert all[i] == outcomes[i];
    }
    if StageFailed(o) {
      assert all[|outcomes|] == o;
    }
    if AnyFailed(all) {
      var i :| 0 <= i < |all| && StageFailed(all[i]);
      if i < |outcomes| {
        assert all[i] == outcomes[i];
      }
    }
  }

  /** The whole invocation: list the bucket, give up if that fails, else
      process every listed key and answer with status 200. */
  function Handle(w: World, backend: Backend, inv: Invocation): (s: Step<Result<Response, string>>)
    ensures s.result.Ok? <==> backend.listing(|w.trace|).Sent?
    ensures s.result.Err? ==>
              && s.world == World(w.objects, w.trace + [ListCall(inv.bucket)])
              && s.result.error == MessageOr(backend.listing(|w.trace|).error, UnknownBucketAccessError)
    ensures s.result.Ok? ==> s.result.value.status == 200
    ensures w.trace + [ListCall(inv.bucket)] <= s.world.trace
  {
    var listed := ListStep(w, backend, inv.bucket);
    match listed.result
    case Err(e) => Step(listed.world, Err(e))
    case Ok(keys) =>
      var run := ProcessKeys(listed.world, backend, inv, keys);
      ProcessKeysEffect(listed.world, backend, inv, keys);
      Step(run.world, Ok(Response(200, BatchMessage(AnyFailed(run.result), inv.material))))
  }

  /** `function_handler`, over the given store, bucket, material and cipher. */
  method FunctionHandler(client: ObjectStore, bucket: string, material: Material, cipher: Cipher)
    returns (r: Result<Response, string>)
    requires client.Valid()
    modifies client
    ensures client.Valid()
    ensures client.State() == Handle(old(client.State()), client.backend, Invocation(bucket, material, cipher)).world
    ensures r == Handle(old(client.State()), client.backend, Invocation(bucket, material, cipher)).result
  {
    ghost var inv := Invocation(bucket, material, cipher);
    var listed := client.ListFiles(bucket);
    if listed.Err? {
      return Err(listed.error);
    }
    var keys := listed.value;
    ghost var start := client.State();
    var encounteredError := false;
    for i := 0 to |keys|
      invariant client.Valid()
      invariant client.State() == ProcessKeys(start, client.backend, inv, keys[..i]).world
      invariant encounteredError == AnyFailed(ProcessKeys(start, client.backend, inv, keys[..i]).result)
    {
      var key := keys[i];
      ghost var done := ProcessKeys(start, client.backend, inv, keys[..i]);
      ghost var next := ProcessKey(client.State(), client.backend, inv, key);
      ProcessKeysSnoc(start, client.backend, inv, keys[..i], key);
      AnyFailedSnoc(done.result, next.result);
      assert keys[..i + 1] == keys[..i] + [key];

      ghost var before := client.State();
      var file := client.GetFile(bucket, key);
      if file.Err? {
        assert next == Step(client.State(), FetchFailed(file.error));
        encounteredError := true;
        continue;
      }
      var encFile := GetEncryptedFile(file.value, material.encKey, material.nonce, cipher);
      if encFile.Err? {
        assert next == Step(client.State(), EncryptFailed(encFile.error));
        encounteredError := true;
        continue;
      }
      var encryptedBucket := EncryptedBucket(bucket);
      var uploaded := client.PutFile(encryptedBucket, key, encFile.value);
      if uploaded.Err? {
        encounteredError := true;
      }
      var deleted := client.DeleteFile(bucket, key);
      if deleted.Err? {
        encounteredError := true;
      }
      assert next == Step(client.State(), Attempted(file.value, encFile.value, uploaded, deleted));
    }
    assert keys[..|keys|] == keys;
    var message := BatchMessage(encounteredError, material);
    r := Ok(Response(200, message));
  }

  // ---------------------------------------------------------------------
  // Creation-event records
  // ---------------------------------------------------------------------

  /** The fields of an S3 event record that `get_file_props` reads. */
  datatype S3EventRecord = S3EventRecord(eventName: Option<string>, bucketName: Option<string>, objectKey: Option<string>)

  const CreatedPrefix: string := "ObjectCreated"

  predicate IsCreationEvent(eventName: Option<string>)
  {
    eventName.Some? && CreatedPrefix <= eventName.value
  }

  predicate IsNonEmpty(name: Option<string>)
  {
    name.Some? && name.value != ""
  }

  /** `get_file_props`: the record's bucket and key, or the first of the
      three checks that fails, in the order event, bucket, key. */
  function GetFileProps(record: S3EventRecord): (r: Result<(string, string), string>)
    ensures r.Ok? <==>
              IsCreationEvent(record.eventName) && IsNonEmpty(record.bucketName) && IsNonEmpty(record.objectKey)
    ensures r.Ok? ==> r.value == (record.bucketName.value, record.objectKey.value)
    ensures r == Err("Wrong event") <==> !IsCreationEvent(record.eventName)
    ensures r == Err("No bucket name") <==>
              IsCreationEvent(record.eventName) && !IsNonEmpty(record.bucketName)
    ensures r == Err("No object key") <==>
              IsCreationEvent(record.eventName) && IsNonEmpty(record.bucketName) && !IsNonEmpty(record.objectKey)
  {
    if !IsCreationEvent(record.eventName) then Err("Wrong event")
    else if !IsNonEmpty(record.bucketName) then Err("No bucket name")
    else if !IsNonEmpty(record.objectKey) then Err("No object key")
    else Ok((record.bucketName.value, record.objectKey.value))
  }
}
