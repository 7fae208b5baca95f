/**
 * The rotation closure `rotatorFactory` returns: read the stored key set,
 * build a key id, take a fresh Ed448 key pair, tag its public JWK, merge it
 * into the set and write the private key and the set back with one patch.
 * The Kubernetes client, the clock, the entropy source, key generation and
 * the base64/JSON codecs are parameters; the cycle itself is a total
 * function returning the steps it took and how it ended.
 */
module Rotator {
  import opened Wrappers
  import opened KeyIds
  import opened Jwks
  import Config

  /** The only key type the rotator generates. */
  const KeyType: string := "ed448"

  /** Secret fields: the serialised key set and the newest private key. */
  const JwksField: string := "jwks.json"
  const PrivateKeyField: string := "private-key.pem"

  const JwksNotFoundMessage: string := "JWKS not found in the secret."

  /** A failure the Kubernetes client reports: its `HttpError`, or anything else. */
  datatype StoreError =
    | HttpError(statusCode: int, message: string, body: string)
    | OtherError(description: string)

  /** A secret as read: `data` maps field names to base64 text and may be absent. */
  datatype Secret = Secret(data: Option<map<string, string>>)

  datatype ReadOutcome = ReadOk(secret: Secret) | ReadError(error: StoreError)
  datatype PatchOutcome = PatchOk | PatchError(error: StoreError)

  /** How the store answers the one read and the one patch a cycle can issue. */
  datatype Store = Store(onRead: ReadOutcome, onPatch: PatchOutcome)

  /** PEM texts: SPKI public key and PKCS#8 private key. */
  datatype KeyPair = KeyPair(publicKey: string, privateKey: string)

  /** The effects and library codecs the cycle consumes, as values. */
  datatype Platform = Platform(
    randomBytes: seq<byte>,             // crypto.randomBytes(8)
    now: int,                           // Date.now()
    keyPair: KeyPair,                   // crypto.generateKeyPairSync('ed448', ...)
    exportJwk: string -> Jwk,           // exportJWK(crypto.createPublicKey(pem))
    fromBase64: string -> string,       // Buffer.from(text, 'base64').toString('utf-8')
    parseJson: string -> Option<Value>, // JSON.parse; None where it throws
    stringifyJson: Value -> string)     // JSON.stringify

  /** What the cycle did, in order: its store calls and the values it built. */
  datatype Step =
    | ReadSecret(namespace: string, name: string)
    | KeyIdGenerated(kid: string)
    | KeyPairGenerated(keyType: string)
    | JwkGenerated(jwk: Jwk)
    | JwksMerged(jwks: KeySet)
    | PatchSecret(namespace: string, name: string, stringData: map<string, string>)

  /** Errors that escape the cycle. */
  datatype Thrown =
    | ReadFailed(error: StoreError)   // readNamespacedSecret rejected
    | JwksNotFound(message: string)   // the field is absent or empty
    | JwksUnparsable                  // JSON.parse threw
    | KeysNotIterable                 // `[...existingJwks.keys]` threw

  /** How a cycle that did not throw ended; each is logged, none is rethrown. */
  datatype Completion =
    | Patched
    | PatchHttpError(statusCode: int, message: string, body: string)
    | PatchUnknownError(error: StoreError)

  datatype Run = Run(trace: seq<Step>, result: Result<Completion, Thrown>)

  /** `secret.data?.['jwks.json']`: absent when there is no data or no such field. */
  function EncodedJwks(secret: Secret): (r: Option<string>)
    ensures r.Some? <==> secret.data.Some? && JwksField in secret.data.value
    ensures r.Some? ==> r.value == secret.data.value[JwksField]
  {
    match secret.data
    case None => None
    case Some(data) => if JwksField in data then Some(data[JwksField]) else None
  }

  /**
   * The store's read answer carries no usable `jwks.json` text: the
   * optional-chained value is falsy, that is undefined or the empty string.
   */
  predicate JwksMissing(read: ReadOutcome): (missing: bool)
    ensures missing <==> read.ReadOk? && (EncodedJwks(read.secret).None? || EncodedJwks(read.secret).value == "")
  {
    && read.ReadOk?
    && (|| read.secret.data.None?
        || JwksField !in read.secret.data.value
        || read.secret.data.value[JwksField] == "")
  }

  /** `readJwks`: the parsed document, or the error it throws. */
  function ReadJwks(read: ReadOutcome, platform: Platform): (r: Result<Value, Thrown>)
    ensures read.ReadError? ==> r == Failure(ReadFailed(read.error))
    ensures JwksMissing(read) ==> r == Failure(JwksNotFound(JwksNotFoundMessage))
    ensures r.Success? ==> read.ReadOk? && !JwksMissing(read)
    ensures read.ReadOk? && !JwksMissing(read) ==>
      var parsed := platform.parseJson(platform.fromBase64(EncodedJwks(read.secret).value));
      && (parsed.None? ==> r == Failure(JwksUnparsable))
      && (parsed.Some? ==> r == Success(parsed.value))
  {
    match read
    case ReadError(e) => Failure(ReadFailed(e))
    case ReadOk(secret) =>
      if JwksMissing(read) then Failure(JwksNotFound(JwksNotFoundMessage))
      else
        match platform.parseJson(platform.fromBase64(secret.data.value[JwksField]))
        case None => Failure(JwksUnparsable)
        case Some(doc) => Success(doc)
  }

  /** `patchSecret`'s `stringData`: the private key and the serialised set, together. */
  function PatchPayload(privateKey: string, jwks: KeySet, platform: Platform): (data: map<string, string>)
    ensures data.Keys == {PrivateKeyField, JwksField}
    ensures data[PrivateKeyField] == privateKey
    ensures data[JwksField] == platform.stringifyJson(ToDocument(jwks))
  {
    map[PrivateKeyField := privateKey, JwksField := platform.stringifyJson(ToDocument(jwks))]
  }

  /** The catch block: an `HttpError` is logged with its details, anything else as unknown. */
  function ClassifyPatch(outcome: PatchOutcome): (c: Completion)
    ensures c.Patched? <==> outcome.PatchOk?
    ensures outcome.PatchError? && outcome.error.HttpError? ==>
      c == PatchHttpError(outcome.error.statusCode, outcome.error.message, outcome.error.body)
    ensures outcome.PatchError? && outcome.error.OtherError? ==> c == PatchUnknownError(outcome.error)
  {
    match outcome
    case PatchOk => Patched
    case PatchError(HttpError(status, message, body)) => PatchHttpError(status, message, body)
    case PatchError(e) => PatchUnknownError(e)
  }

  /** The number of patches a trace issues. */
  function PatchCount(trace: seq<Step>): nat {
    if |trace| == 0 then 0
    else PatchCount(trace[..|trace| - 1]) + (if trace[|trace| - 1].PatchSecret? then 1 else 0)
  }

  lemma {:induction false} PatchCountAppend(trace: seq<Step>, step: Step)
    ensures PatchCount(trace + [step]) == PatchCount(trace) + (if step.PatchSecret? then 1 else 0)
  {
    assert (trace + [step])[..|trace|] == trace;
  }

  lemma {:induction false} NoPatches(trace: seq<Step>)
    requires forall i | 0 <= i < |trace| :: !trace[i].PatchSecret?
    ensures PatchCount(trace) == 0
  {
    if |trace| > 0 {
      var init := trace[..|trace| - 1];
      assert forall i | 0 <= i < |init| :: init[i] == trace[i];
      NoPatches(init);
    }
  }

  /** The steps up to and including the JWK, which every cycle past the read takes. */
  function Prefix(config: Config.Config, kid: string, jwk: Jwk): (steps: seq<Step>)
    ensures |steps| == 4 && PatchCount(steps) == 0
  {
    var steps := [
      ReadSecret(config.namespace, config.secretName),
      KeyIdGenerated(kid),
      KeyPairGenerated(KeyType),
      JwkGenerated(jwk)];
    NoPatches(steps);
    steps
  }

  /**
   * One rotation cycle.  Read failures throw and no patch follows; after a
   * successful merge exactly one patch is issued, last, and its failure of
   * either kind is logged and swallowed.
   */
  function Rotate(config: Config.Config, store: Store, platform: Platform): (run: Run)
    requires |platform.randomBytes| == RandomWidth
    requires config.maxKeys >= 1
    ensures |run.trace| >= 1 && run.trace[0] == ReadSecret(config.namespace, config.secretName)
    ensures PatchCount(run.trace) <= 1
    ensures run.result.Success? <==> PatchCount(run.trace) == 1
    ensures run.result.Success? ==> run.trace[|run.trace| - 1].PatchSecret?
    ensures store.onRead.ReadError? ==>
      run == Run([ReadSecret(config.namespace, config.secretName)], Failure(ReadFailed(store.onRead.error)))
    ensures JwksMissing(store.onRead) ==>
      run == Run([ReadSecret(config.namespace, config.secretName)], Failure(JwksNotFound(JwksNotFoundMessage)))
    ensures ReadJwks(store.onRead, platform).Failure? ==>
      run == Run([ReadSecret(config.namespace, config.secretName)], Failure(ReadJwks(store.onRead, platform).error))
    ensures run.result.Success? ==> (run.result.value.Patched? <==> store.onPatch.PatchOk?)
  {
    var read := ReadSecret(config.namespace, config.secretName);
    match ReadJwks(store.onRead, platform)
    case Failure(thrown) =>
      NoPatches([read]);
      Run([read], Failure(thrown))
    case Success(doc) =>
      var kid := GetUniqueKeyId(platform.randomBytes, platform.now);
      var jwk := GenerateJwk(platform.exportJwk(platform.keyPair.publicKey), kid);
      var steps := Prefix(config, kid, jwk);
      match KeysOf(doc)
      case None => Run(steps, Failure(KeysNotIterable))
      case Some(keys) =>
        var merged := MergeJwks(KeySet(keys), jwk, config.maxKeys);
        var payload := PatchPayload(platform.keyPair.privateKey, merged, platform);
        var patch := PatchSecret(config.namespace, config.secretName, payload);
        PatchCountAppend(steps, JwksMerged(merged));
        PatchCountAppend(steps + [JwksMerged(merged)], patch);
        Run(steps + [JwksMerged(merged)] + [patch], Success(ClassifyPatch(store.onPatch)))
  }

  /** The stored keys the merge starts from, when the read and the parse succeed. */
  function LoadedKeys(store: Store, platform: Platform): Option<seq<Value>> {
    match ReadJwks(store.onRead, platform)
    case Failure(_) => None
    case Success(doc) => KeysOf(doc)
  }

  /** A patch is issued exactly when the stored set was read, parsed and iterable. */
  lemma PatchIssuedIffKeysLoaded(config: Config.Config, store: Store, platform: Platform)
    requires |platform.randomBytes| == RandomWidth && config.maxKeys >= 1
    ensures PatchCount(Rotate(config, store, platform).trace) == 1 <==> LoadedKeys(store, platform).Some?
  {
  }

  /**
   * A cycle that patches takes six steps in a fixed order: read, key id,
   * Ed448 key pair, JWK, merge, patch; the patch writes the new private key
   * and the serialised merged set, and nothing else.
   */
  lemma RotateSteps(config: Config.Config, store: Store, platform: Platform)
    requires |platform.randomBytes| == RandomWidth && config.maxKeys >= 1
    requires Rotate(config, store, platform).result.Success?
    ensures var t := Rotate(config, store, platform).trace;
      && |t| == 6
      && t[0] == ReadSecret(config.namespace, config.secretName)
      && t[1].KeyIdGenerated?
      && t[2] == KeyPairGenerated(KeyType)
      && t[3].JwkGenerated?
      && t[4].JwksMerged?
      && t[5].PatchSecret?
      && t[5].namespace == config.namespace && t[5].name == config.secretName
      && t[5].stringData.Keys == {PrivateKeyField, JwksField}
      && t[5].stringData[PrivateKeyField] == platform.keyPair.privateKey
      && t[5].stringData[JwksField] == platform.stringifyJson(ToDocument(t[4].jwks))
  {
  }

  /**
   * The key id is built from this cycle's random bytes and clock, and the
   * JWK carries it as `kid` with `alg` EdDSA over the exported public members.
   */
  lemma RotateTagsNewKey(config: Config.Config, store: Store, platform: Platform)
    requires |platform.randomBytes| == RandomWidth && config.maxKeys >= 1
    requires Rotate(config, store, platform).result.Success?
    ensures var t := Rotate(config, store, platform).trace;
      var exported := platform.exportJwk(platform.keyPair.publicKey);
      && |t| == 6 && t[1].KeyIdGenerated? && t[3].JwkGenerated?
      && ParseKeyId(t[1].kid) == Some(KeyIdParts(platform.randomBytes, platform.now))
      && t[3].jwk["kid"] == Str(t[1].kid)
      && t[3].jwk["alg"] == Str(EdDsa)
      && t[3].jwk.Keys == exported.Keys + {"kid", "alg"}
      && (IsPublic(exported) ==> IsPublic(t[3].jwk))
  {
    RotateSteps(config, store, platform);
    KeyIdRoundTrip(platform.randomBytes, platform.now);
  }

  /**
   * The written set is the stored keys with the new JWK appended, cut to the
   * first `maxKeys`: never longer than the bound, existing keys first and in
   * order, and the new key present, last, exactly when there was room.
   */
  lemma RotateMergesStoredKeys(config: Config.Config, store: Store, platform: Platform)
    requires |platform.randomBytes| == RandomWidth && config.maxKeys >= 1
    requires LoadedKeys(store, platform).Some?
    ensures var t := Rotate(config, store, platform).trace;
      var stored := LoadedKeys(store, platform).value;
      var written := t[4].jwks.keys;
      && |t| == 6 && t[3].JwkGenerated? && t[4].JwksMerged?
      && |written| == Min(|stored| + 1, config.maxKeys)
      && written <= stored + [Obj(t[3].jwk)]
      && (|stored| < config.maxKeys <==> written == stored + [Obj(t[3].jwk)])
      && (|stored| >= config.maxKeys ==> written == stored[..config.maxKeys])
  {
  }

  /** The array entry is a JWK whose `kid` is `kid`. */
  predicate HasKid(entry: Value, kid: string) {
    entry.Obj? && "kid" in entry.members && entry.members["kid"] == Str(kid)
  }

  /**
   * Once the stored set is full, the patch still replaces `private-key.pem`
   * with the new private key, but no entry of the written set carries the new
   * key's id: the newest private key has no published public key.
   */
  lemma NewKeyUnpublishedWhenFull(config: Config.Config, store: Store, platform: Platform)
    requires |platform.randomBytes| == RandomWidth && config.maxKeys >= 1
    requires LoadedKeys(store, platform).Some?
    requires |LoadedKeys(store, platform).value| >= config.maxKeys
    requires forall e | e in LoadedKeys(store, platform).value ::
      !HasKid(e, GetUniqueKeyId(platform.randomBytes, platform.now))
    ensures var t := Rotate(config, store, platform).trace;
      && |t| == 6 && t[4].JwksMerged? && t[5].PatchSecret?
      && t[5].stringData[PrivateKeyField] == platform.keyPair.privateKey
      && forall e | e in t[4].jwks.keys :: !HasKid(e, t[1].kid)
  {
    var stored := LoadedKeys(store, platform).value;
    var t := Rotate(config, store, platform).trace;
    assert t[4].jwks.keys == stored[..config.maxKeys];
    assert forall e | e in stored[..config.maxKeys] :: e in stored;
  }

  /** While there is room, the new key is published and its `kid` is found in the written set. */
  lemma NewKeyPublishedWhileRoom(config: Config.Config, store: Store, platform: Platform)
    requires |platform.randomBytes| == RandomWidth && config.maxKeys >= 1
    requires LoadedKeys(store, platform).Some?
    requires |LoadedKeys(store, platform).value| < config.maxKeys
    ensures var t := Rotate(config, store, platform).trace;
      && |t| == 6 && t[4].JwksMerged?
      && |t[4].jwks.keys| >= 1
      && HasKid(t[4].jwks.keys[|t[4].jwks.keys| - 1], t[1].kid)
  {
  }

  /**
   * A failed patch never escapes: the cycle returns normally, with an
   * `HttpError` reported by status, message and body and any other error as
   * unknown.
   */
  lemma PatchFailureSwallowed(config: Config.Config, store: Store, platform: Platform)
    requires |platform.randomBytes| == RandomWidth && config.maxKeys >= 1
    requires LoadedKeys(store, platform).Some?
    requires store.onPatch.PatchError?
    ensures var run := Rotate(config, store, platform);
      var e := store.onPatch.error;
      && run.result.Success?
      && (e.HttpError? ==> run.result.value == PatchHttpError(e.statusCode, e.message, e.body))
      && (e.OtherError? ==> run.result.value == PatchUnknownError(e))
  {
  }

  /** `parseJson` reads back the document `stringifyJson` of the writing side printed for `jwks`. */
  predicate DocumentReadsBack(writer: Platform, reader: Platform, jwks: KeySet) {
    reader.parseJson(writer.stringifyJson(ToDocument(jwks))) == Some(ToDocument(jwks))
  }

  /**
   * Chaining two cycles: when the next read returns the `jwks.json` text the
   * patch wrote and the JSON codec reads that document back, the next cycle merges into
   * exactly the set this cycle wrote.
   */
  lemma NextCycleStartsFromWrittenSet(
    config: Config.Config, store: Store, platform: Platform,
    next: Store, nextPlatform: Platform)
    requires |platform.randomBytes| == RandomWidth && config.maxKeys >= 1
    requires Rotate(config, store, platform).result.Success?
    requires DocumentReadsBack(platform, nextPlatform, Rotate(config, store, platform).trace[4].jwks)
    requires next.onRead.ReadOk? && !JwksMissing(next.onRead)
    requires nextPlatform.fromBase64(next.onRead.secret.data.value[JwksField])
          == Rotate(config, store, platform).trace[|Rotate(config, store, platform).trace| - 1].stringData[JwksField]
    ensures var t := Rotate(config, store, platform).trace;
      |t| == 6 && t[4].JwksMerged? && LoadedKeys(next, nextPlatform) == Some(t[4].jwks.keys)
  {
    RotateSteps(config, store, platform);
  }
}
