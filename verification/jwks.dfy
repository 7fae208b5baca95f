/**
 * JSON Web Keys and Key Sets (RFC 7517): tagging an exported public key with
 * `kid` and `alg` (`generateJwk`) and the bounded merge of a new key into the
 * `keys` array of the stored set (`mergeJwks`).
 */
module Jwks {
  import opened Wrappers

  /** A parsed JSON value.  Numbers are not modelled beyond integers. */
  datatype Value =
    | Null
    | Bool(b: bool)
    | Num(n: int)
    | Str(s: string)
    | Arr(items: seq<Value>)
    | Obj(members: map<string, Value>)

  /** A JSON Web Key: the members of one JSON object. */
  type Jwk = map<string, Value>

  /** The JWK `alg` value for Edwards-curve signatures (section 3.1 of RFC 8037). */
  const EdDsa: string := "EdDSA"

  /**
   * Members that carry private key material (section 6 of RFC 7518 and
   * section 2 of RFC 8037); a public JWK has none of them.
   */
  const PrivateMembers: set<string> := {"d", "p", "q", "dp", "dq", "qi", "oth", "k"}

  predicate IsPublic(jwk: Jwk) {
    PrivateMembers !! jwk.Keys
  }

  /**
   * `generateJwk`: the members of the exported public key, then `kid` and
   * `alg` written over them, as the object spread `{...exported, kid, alg}` does.
   */
  function GenerateJwk(exported: Jwk, keyId: string): (jwk: Jwk)
    ensures jwk.Keys == exported.Keys + {"kid", "alg"}
    ensures jwk["kid"] == Str(keyId)
    ensures jwk["alg"] == Str(EdDsa)
    ensures forall m | m in exported && m != "kid" && m != "alg" :: jwk[m] == exported[m]
    ensures IsPublic(exported) <==> IsPublic(jwk)
  {
    exported["kid" := Str(keyId)]["alg" := Str(EdDsa)]
  }

  /** Tagging again replaces the earlier tag: only the last key id survives. */
  lemma GenerateJwkRetag(exported: Jwk, keyId1: string, keyId2: string)
    ensures GenerateJwk(GenerateJwk(exported, keyId1), keyId2) == GenerateJwk(exported, keyId2)
  {
    var once := GenerateJwk(exported, keyId2);
    var twice := GenerateJwk(GenerateJwk(exported, keyId1), keyId2);
    assert forall m | m in once :: m in twice && twice[m] == once[m];
  }

  /** A JSON Web Key Set as the rotator writes it: the object `{ keys: [...] }`. */
  datatype KeySet = KeySet(keys: seq<Value>)

  /**
   * The JSON document handed to `JSON.stringify`: an object whose only
   * member is `keys`, from which `KeysOf` reads the same keys back.
   */
  function ToDocument(ks: KeySet): (v: Value)
    ensures v.Obj? && v.members.Keys == {"keys"}
    ensures KeysOf(v) == Some(ks.keys)
  {
    Obj(map["keys" := Arr(ks.keys)])
  }

  /**
   * The array a parsed document yields for `[...doc.keys]`.  Any other shape
   * (no object, no `keys` member, a `keys` member that is not an array) makes
   * the spread throw in the source; that is `None` here.
   */
  function KeysOf(doc: Value): (r: Option<seq<Value>>)
    ensures r.Some? <==> doc.Obj? && "keys" in doc.members && doc.members["keys"].Arr?
    ensures r.Some? ==> doc.members["keys"] == Arr(r.value)
  {
    if doc.Obj? && "keys" in doc.members && doc.members["keys"].Arr? then
      Some(doc.members["keys"].items)
    else
      None
  }

  function Min(a: int, b: int): int {
    if a < b then a else b
  }

  /** `Array#slice(0, n)`: the first `n` elements, or all of them if fewer. */
  function Take<T>(s: seq<T>, n: nat): (r: seq<T>)
    ensures |r| == Min(|s|, n)
    ensures r <= s
  {
    if |s| <= n then s else s[..n]
  }

  /**
   * `mergeJwks`: appends the new key to the existing keys and keeps the FIRST
   * `maxKeys` entries.  Once the set is full the new key is the one dropped.
   * Members of the stored document other than `keys` are not carried over.
   */
  function MergeJwks(existing: KeySet, newJwk: Jwk, maxKeys: nat): (merged: KeySet)
    ensures |merged.keys| == Min(|existing.keys| + 1, maxKeys)
    ensures merged.keys <= existing.keys + [Obj(newJwk)]
    ensures |existing.keys| < maxKeys <==> merged.keys == existing.keys + [Obj(newJwk)]
    ensures |existing.keys| >= maxKeys ==> merged.keys == existing.keys[..maxKeys]
  {
    KeySet(Take(existing.keys + [Obj(newJwk)], maxKeys))
  }

  /** Every entry the merge keeps was already there, or is the new key in last place. */
  lemma MergeKeepsExistingOrder(existing: KeySet, newJwk: Jwk, maxKeys: nat, i: nat)
    requires i < |MergeJwks(existing, newJwk, maxKeys).keys|
    ensures i < |existing.keys| ==> MergeJwks(existing, newJwk, maxKeys).keys[i] == existing.keys[i]
    ensures i == |existing.keys| ==> MergeJwks(existing, newJwk, maxKeys).keys[i] == Obj(newJwk)
  {
    var s := existing.keys + [Obj(newJwk)];
    assert MergeJwks(existing, newJwk, maxKeys).keys[i] == s[i];
  }

  /**
   * A set already at the bound stops changing: the new key is
   * dropped and the first `maxKeys` keys are republished as they are.
   */
  lemma FullSetIgnoresNewKey(existing: KeySet, newJwk: Jwk, maxKeys: nat)
    requires |existing.keys| == maxKeys
    ensures MergeJwks(existing, newJwk, maxKeys) == existing
  {
    assert existing.keys[..maxKeys] == existing.keys;
  }

  /** The JWKs as array entries. */
  function AsValues(jwks: seq<Jwk>): (vs: seq<Value>)
    ensures |vs| == |jwks|
  {
    if |jwks| == 0 then [] else [Obj(jwks[0])] + AsValues(jwks[1..])
  }

  /** Merging `jwks` one after another, oldest first, as successive rotations do. */
  function MergeAll(start: KeySet, jwks: seq<Jwk>, maxKeys: nat): KeySet
    decreases |jwks|
  {
    if |jwks| == 0 then start else MergeAll(MergeJwks(start, jwks[0], maxKeys), jwks[1..], maxKeys)
  }

  lemma TakeOfTake<T>(a: seq<T>, b: seq<T>, n: nat)
    ensures Take(Take(a, n) + b, n) == Take(a + b, n)
  {
    if |a| > n {
      assert (a + b)[..n] == a[..n];
      assert (a[..n] + b)[..n] == a[..n];
    }
  }

  /**
   * Successive merges append all the keys and then cut at the bound once:
   * the result is the first `maxKeys` of the existing keys followed by the new ones.
   */
  lemma {:induction false} MergeAllTakesFirst(start: KeySet, jwks: seq<Jwk>, maxKeys: nat)
    requires |jwks| > 0
    ensures MergeAll(start, jwks, maxKeys).keys == Take(start.keys + AsValues(jwks), maxKeys)
    decreases |jwks|
  {
    var a := start.keys + [Obj(jwks[0])];
    var next := MergeJwks(start, jwks[0], maxKeys);
    assert next.keys == Take(a, maxKeys);
    AsValuesCons(start.keys, jwks);
    if |jwks| > 1 {
      var rest := AsValues(jwks[1..]);
      MergeAllTakesFirst(next, jwks[1..], maxKeys);
      TakeOfTake(a, rest, maxKeys);
    }
  }

  lemma AsValuesCons(keys: seq<Value>, jwks: seq<Jwk>)
    requires |jwks| > 0
    ensures keys + AsValues(jwks) == keys + [Obj(jwks[0])] + AsValues(jwks[1..])
  {
    assert AsValues(jwks) == [Obj(jwks[0])] + AsValues(jwks[1..]);
  }

  /**
   * From an empty set, rotating in `jwks` oldest first leaves exactly the
   * OLDEST `min(n, maxKeys)` keys, in insertion order.
   */
  lemma MergeAllFromEmpty(jwks: seq<Jwk>, maxKeys: nat)
    ensures MergeAll(KeySet([]), jwks, maxKeys).keys == AsValues(jwks)[..Min(|jwks|, maxKeys)]
  {
    if |jwks| > 0 {
      MergeAllTakesFirst(KeySet([]), jwks, maxKeys);
      assert [] + AsValues(jwks) == AsValues(jwks);
    }
  }

  /** With a bound of two, the third key never makes it into the set. */
  lemma ThirdKeyDropped(k1: Jwk, k2: Jwk, k3: Jwk)
    ensures MergeAll(KeySet([]), [k1, k2, k3], 2).keys == [Obj(k1), Obj(k2)]
  {
    MergeAllFromEmpty([k1, k2, k3], 2);
    assert AsValues([k1, k2, k3])[..2] == [Obj(k1), Obj(k2)] by {
      assert [k1, k2, k3][1..] == [k2, k3];
      assert [k2, k3][1..] == [k3];
    }
  }
}
