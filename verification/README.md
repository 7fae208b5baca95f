# JWT key rotator — a Dafny model

A model of the rotation engine of `chat-jwt-keys-rotator`: one run reads the
JSON Web Key Set (section 5 of RFC 7517) stored in the Kubernetes secret's
`jwks.json` field, builds a new key id, takes a fresh Ed448 key pair, tags
its public JWK with `kid` (section 4.5 of RFC 7517) and `alg` `EdDSA`
(section 3.1 of RFC 8037), merges it into the set under the `maxKeys`
bound and writes the private key (`private-key.pem`) and the merged set
back with one patch.  The configuration factory that supplies `namespace`,
`secretName`, `jwksPath` and `maxKeys` from environment variables is
modelled too.

Modules, one per concern:

- `Wrappers` — `Option`, `Result` and `??`.
- `Numerals` — unpadded base-16 and base-10 numerals (`Number#toString(16)`,
  decimal `MAX_KEYS`), with both round trips and the digit-count bounds.
- `KeyIds` — `getUniqueKeyId`: 16 hex characters of 8 random bytes, then the
  time in unpadded hex; a parser that recovers both parts.
- `Jwks` — JSON values, JWK tagging (`generateJwk`) and the bounded merge
  (`mergeJwks`), with iterated merges.
- `Config` — `configFactory`: `??` defaults, then the schema's checks.
- `Rotator` — the returned rotation closure as a total function from the
  store's answers and the platform's effects to a trace and a result.

The merge is modelled as the code writes it: the new key is APPENDED and the
FIRST `maxKeys` entries are kept.  Two consequences are proved rather than
assumed away.  From an empty set, rotating in K1..Kn leaves the oldest
`min(n, maxKeys)` keys (`Jwks.MergeAllFromEmpty`, `Jwks.ThirdKeyDropped`).
Once the stored set is full, it stops changing (`Jwks.FullSetIgnoresNewKey`).
The patch still overwrites `private-key.pem` with the new key, whose `kid`
then appears nowhere in the written set (`Rotator.NewKeyUnpublishedWhenFull`).

A missing secret or `jwks.json` field is an error, the key type is always
`ed448`, `alg` is always `EdDSA`, and the private key is written as PEM text.
The code also accepts an empty `NAMESPACE` or `SECRET_NAME`, and so does the
model.

## Model

| member | source | states |
|---|---|---|
| `Numerals.ToNumeral` | src/rotator.ts:29 | `toString(16)` of a non-negative time is a non-empty string of lower-case hex digits with no leading zero, and it is `"0"` exactly for zero |
| `Numerals.FromToNumeral` | src/rotator.ts:29 | reading the printed hex numeral back gives the number |
| `Numerals.ToFromNumeral` | src/rotator.ts:29 | every canonical numeral is the printing of its value, so printing is a bijection onto canonical numerals |
| `Numerals.ToNumeralInjective` | src/rotator.ts:28-29 | different times print as different hex strings |
| `Numerals.NumeralLength` | src/rotator.ts:29 | the printed length is the digit count: `base^(len-1) <= n < base^len` for non-zero `n` |
| `KeyIds.BytesToHex` | src/rotator.ts:31 | hex of `k` bytes is `2k` hex digits |
| `KeyIds.HexToBytesOfBytesToHex` | src/rotator.ts:31 | the hex encoding of the random bytes is injective: decoding it gives the bytes back |
| `KeyIds.NumberToHex` | src/rotator.ts:29 | `toString(16)` of a time is a canonical hex numeral exactly when the time is non-negative; a negative time prints as `-` followed by the canonical, non-zero hex of its magnitude |
| `KeyIds.HexToNumberOfNumberToHex` | src/rotator.ts:29 | `toString(16)` of any integer time, negative ones with a minus sign, can be read back |
| `KeyIds.GetUniqueKeyId` | src/rotator.ts:27-34 | the id is 16 hex digits followed by the time's hex; its length is 16 plus the time's hex length; for a non-negative time every character is a hex digit and the time part has no leading zero |
| `KeyIds.KeyIdRoundTrip` | src/rotator.ts:29-33 | splitting an id after 16 characters recovers both the random bytes and the time |
| `KeyIds.KeyIdsUniqueByTime` | src/rotator.ts:28-33 | ids built at different times differ whatever their random bytes, as the comment on uniqueness claims |
| `KeyIds.KeyIdLength` | src/rotator.ts:29-33 | for a positive time the id length `len` satisfies `16^(len-17) <= now < 16^(len-16)` |
| `Jwks.GenerateJwk` | src/rotator.ts:40-44 | the tagged JWK has exactly the exported members plus `kid` and `alg`; `kid` is the key id and `alg` is `EdDSA` even when the export had them; every other member is unchanged; it is public exactly when the export is |
| `Jwks.GenerateJwkRetag` | src/rotator.ts:40-44 | tagging an already tagged JWK keeps only the last key id |
| `Jwks.KeysOf` | src/rotator.ts:48 | the spread of `existingJwks.keys` succeeds exactly for an object whose `keys` member is an array, and yields that array |
| `Jwks.ToDocument` | src/rotator.ts:50-52 | the written document is an object whose only member is `keys`, and reading `keys` back from it yields the set's keys |
| `Jwks.Take` | src/rotator.ts:51 | `slice(0, n)` yields a prefix of length `min(len, n)` |
| `Jwks.MergeJwks` | src/rotator.ts:47-53 | the merged length is `min(existing + 1, maxKeys)`; the result is a prefix of the existing keys followed by the new key; the new key is appended iff there was room; otherwise the result is the first `maxKeys` existing keys |
| `Jwks.MergeKeepsExistingOrder` | src/rotator.ts:48-51 | every kept entry at a position below the old length is the existing entry there; the entry right after them is the new key |
| `Jwks.FullSetIgnoresNewKey` | src/rotator.ts:48-51 | merging into a set of exactly `maxKeys` keys returns that set unchanged |
| `Jwks.MergeAllTakesFirst` | src/rotator.ts:47-53 | successive merges equal one append of all new keys followed by one cut at the bound |
| `Jwks.MergeAllFromEmpty` | src/rotator.ts:47-53 | from an empty set, merging K1..Kn yields exactly K1..K`min(n, maxKeys)` |
| `Jwks.ThirdKeyDropped` | src/rotator.ts:47-53 | with `maxKeys` 2, three rotations from empty leave `[K1, K2]` |
| `Wrappers.Coalesce` | src/config.ts:16-19 | `??` yields the value when it is defined and the fallback otherwise |
| `Config.WithDefaults` | src/config.ts:15-20 | a set `JWKS_PATH`, `SECRET_NAME` or `MAX_KEYS` is kept as it is, even when empty, and an unset one becomes `/tmp/jwks.json`, `jwt-keys` or `2`; `NAMESPACE` is passed through as it is |
| `Config.CoerceNumber` | src/config.ts:7 | `Number("")` is 0; a finite result's magnitude is below the overflow bound `2^1024 - 2^970`, the least magnitude that rounds to infinity |
| `Config.CoerceInteger` | src/config.ts:7 | integer text, with or without a minus sign, coerces to exactly its value below the overflow bound `2^1024 - 2^970`, and to an infinity of its sign at or above it |
| `Config.MaxKeysIssues` | src/config.ts:7 | `MAX_KEYS` raises no issue exactly when its number is positive and whole |
| `Config.ConfigFactory` | src/config.ts:14-23 | an unset `NAMESPACE` fails with a `Required` issue; an accepted config keeps present env values verbatim and uses `/tmp/jwks.json` and `jwt-keys` otherwise; its `maxKeys` is at least 1, below the overflow bound, and is exactly the number the text denotes |
| `Config.ConfigFactoryDecides` | src/config.ts:3-23 | the env is accepted exactly when `NAMESPACE` is set and the defaulted `MAX_KEYS` raises no issue; a rejection lists the `Required` issue for an unset `NAMESPACE` followed by the `MAX_KEYS` issues |
| `Config.ConfigDefaults` | src/config.ts:15-19 | with only `NAMESPACE` set the config is `/tmp/jwks.json`, that namespace, `jwt-keys`, 2 |
| `Config.AcceptsPositiveDecimal` | src/config.ts:7 | every positive decimal `MAX_KEYS` below the overflow bound is accepted as exactly that number |
| `Config.RejectsOverflow` | src/config.ts:7 | a decimal `MAX_KEYS` at or above the overflow bound reads as infinity and is rejected with a not-integer issue |
| `Config.RejectsNonPositive` | src/config.ts:7 | `0` and every negative decimal `MAX_KEYS` is rejected with a too-small issue |
| `Config.CoerceFraction` | src/config.ts:7 | `whole.fraction` coerces to `whole * 10^k + fraction` over `10^k`, or to positive infinity when that reaches the overflow bound |
| `Config.RejectsFraction` | src/config.ts:7 | a `MAX_KEYS` with a non-zero fractional part is rejected with a not-integer issue |
| `Rotator.EncodedJwks` | src/rotator.ts:18 | `secret.data?.['jwks.json']` is defined exactly when the secret has data holding that field, and is then that field's text |
| `Rotator.JwksMissing` | src/rotator.ts:18-19 | the read yields no usable text exactly when the read succeeded and the optional-chained field is undefined or empty |
| `Rotator.ReadJwks` | src/rotator.ts:15-25 | a store read error propagates unchanged; an absent secret data, an absent or empty `jwks.json` throws `JWKS not found in the secret.`; success implies the text was present; otherwise the decoded text that `JSON.parse` rejects throws, and the document it parses is the result |
| `Rotator.PatchPayload` | src/rotator.ts:59-64 | the patch sets exactly `private-key.pem` to the private key and `jwks.json` to the serialised set |
| `Rotator.ClassifyPatch` | src/rotator.ts:95-106 | a clean patch is `Patched`; an `HttpError` is reported with its status, message and body; any other error as unknown |
| `Rotator.Rotate` | src/rotator.ts:78-107 | the first step is the read; at most one patch is issued, last, and exactly when the cycle returns normally; every error `readJwks` throws, including an unparsable `jwks.json`, ends the cycle right after the read with that error |
| `Rotator.PatchIssuedIffKeysLoaded` | src/rotator.ts:78-96 | the patch is issued iff the stored set was read, parsed and had an iterable `keys` |
| `Rotator.RotateSteps` | src/rotator.ts:78-96 | a patching cycle runs read, key id, `ed448` key pair, JWK, merge, patch in that order, and the patch carries the new private key and the merged set together |
| `Rotator.RotateTagsNewKey` | src/rotator.ts:82-90 | the key id is built from this cycle's random bytes and time, and the JWK carries it as `kid` with `alg` `EdDSA` |
| `Rotator.RotateMergesStoredKeys` | src/rotator.ts:92-96 | the written set is bounded by `maxKeys`, keeps the stored keys first and in order, and holds the new key last exactly when there was room |
| `Rotator.NewKeyUnpublishedWhenFull` | src/rotator.ts:92-96 | with a full stored set, the new private key is written but no written entry carries its `kid` |
| `Rotator.NewKeyPublishedWhileRoom` | src/rotator.ts:92-96 | with room in the stored set, the last written entry carries the new `kid` |
| `Rotator.NextCycleStartsFromWrittenSet` | src/rotator.ts:23-24 | when the next read returns the text the patch wrote and `JSON.parse` reads that one written document back, the next cycle merges into exactly the set this cycle wrote |
| `Rotator.PatchFailureSwallowed` | src/rotator.ts:95-106 | a failed patch of either class is logged and the cycle returns normally |

## Left out

- Kubernetes client construction, the HTTP transport, the patch headers and
  the strategic-merge semantics of the patch: the store is the pair of
  answers it gives to the one read and the one patch.
- How the patch's `stringData` becomes the next read's base64 `data` belongs
  to the store: `Rotator.NextCycleStartsFromWrittenSet` takes it, and the
  JSON read-back of the written document, as hypotheses, and
  `Jwks.MergeAll` chains merges directly.
- Key generation and `exportJWK`: the key pair and the exported public JWK
  are opaque inputs.  Their failures, which would throw before any patch, are
  not modelled.
- `crypto.randomBytes(8)` and `Date.now()`: parameters.  The time is any
  integer.
- Base64 decoding, `JSON.parse` and `JSON.stringify`: function parameters.
  JSON numbers are integers.
- Logging, and the startup wiring in `src/main.ts`.
- Jwks.KeysOf: a `keys` member that is a string is iterable in JavaScript and
  would be spread character by character; the model treats it as not iterable.
- Config.CoerceNumber: only the empty string and plain decimal text with an
  optional sign are read as numbers.  `Number(...)` also accepts surrounding
  whitespace, hex/binary/octal literals, exponents and `Infinity`.  The model
  reads all other text as NaN, so it rejects some values the source accepts.
  A finite result is the exact decimal value, not the nearest double: the
  rounding `Number(...)` applies is not modelled.
- Config.CoerceInteger: integers above `2^53` read as their exact value,
  while `Number(...)` rounds them to the nearest double
  (`9007199254740993` becomes `9007199254740992`).
- Config.AcceptsPositiveDecimal: above `2^53` the source accepts the
  rounded value, not exactly `n`.
- Config.CoerceFraction: the coerced value is the exact quotient, not the
  nearest double.
- Config.RejectsFraction: a fraction whose nearest double is whole, such as
  `1.00000000000000001`, is accepted by the source as that whole number; the
  model rejects it.
- Config.ConfigFactory: decimal text below the overflow bound is read
  exactly.  Rounding to the nearest double is not modelled: it can turn a
  fraction with many digits into a whole number, and it changes the value of
  a whole number above `2^53`.  Overflow to infinity is modelled.  Zod's
  issue messages and paths are reduced to a field and an issue code.
