# Tesla charge monitor: storage, vehicle client and PKCE helpers in Dafny

This project models the core of a small Tesla charge-monitoring web application and proves
properties of the model. It has three parts:

- **The in-memory store** (`MemStorage`). It holds one credentials slot and a table of
  charging schedules keyed by an auto-incremented id. `storage.dfy` describes its state as
  a value, `Store`, with one function per operation. The class `MemStorage` keeps the same
  fields, and each of its methods is proved to change them exactly as the matching function
  says. The JavaScript `Map` iteration order is modelled by an `order` sequence beside the
  map.
- **The vehicle-API client** (`TeslaClient`).
  - `getVehicleStatus` is a pure function. Its inputs are the access token, the reply to the
    vehicle-list request and the per-vehicle replies of the vehicle-data endpoint. It returns
    the status or the error, plus the requests it issued.
  - `exchangeCodeForTokens` is a method over the browser's `localStorage`. The token
    endpoint is a parameter.
- **The PKCE helpers** (`generateCodeVerifier` and `generateCodeChallenge`). They are built
  on a model of `btoa` (base64 per section 4 of RFC 4648) and of the three-replacement
  chain. That chain is proved equal to unpadded base64url (section 5 of RFC 4648), and a
  decoder proves it invertible.

Files:

- `wrappers.dfy`: `Option` and `Result`.
- `schema.dfy`: the record shapes and the spread merge.
- `storage.dfy`: the store.
- `base64.dfy`: the encoders and the decoder.
- `pkce.dfy`: the verifier and the challenge.
- `tesla.dfy`: the client.

## Model

| member | source | states |
|---|---|---|
| Schema.WithId | server/storage.ts:37 | `{ id, ...schedule }` has the given id, and its other columns are exactly the payload's |
| Schema.MergeFields | server/storage.ts:46 | the spread merge keeps the id; each key the patch carries overrides that column, and every other column is kept; an empty patch changes nothing; a full patch replaces every column |
| Schema.MergeCompose | server/storage.ts:46 | two successive patches equal one patch in which the later keys win, and applying the same patch twice changes nothing more |
| Storage.InitialInv | server/storage.ts:17-20 | a new store has no credentials, no schedules and `currentId` 1, and satisfies the store invariant |
| Storage.CreateSpec | server/storage.ts:35-40 | create issues `currentId`; that id is absent from the table and above every key; the record is the payload under that id; `currentId` goes up by one; the id goes last in iteration order; credentials are untouched; the invariant is kept |
| Storage.UpdateSpec | server/storage.ts:42-49 | update fails with "Schedule not found" exactly when the id is absent, and then changes nothing; otherwise it stores and returns the merge of the existing record and the patch, leaving the id, the iteration order, `currentId` and the credentials as they were; the invariant is kept |
| Storage.DeleteSpec | server/storage.ts:51-53 | delete removes the key and nothing else; an absent key is a no-op; deleting twice is deleting once; `currentId` never goes back; the invariant is kept |
| Storage.SaveSpec | server/storage.ts:26-29 | saving credentials overwrites the single slot with the payload's fields; the id is 1 unless the payload carries its own id, which then wins; the schedules, their order and `currentId` are untouched, and the invariant is kept |
| Storage.ListingSpec | server/storage.ts:31-33 | the listing has one entry per stored record; every entry is the record stored under its id; every stored record is listed; ids strictly ascend |
| Storage.IdsNeverReused | server/storage.ts:35-53 | after any sequence of saves, creates, updates and deletes the invariant still holds; the ids issued strictly ascend and lie between the old and the new `currentId`, which has grown by their number, so a deleted id is never issued again |
| Storage.NextIdIsNew | server/storage.ts:17-20 | from a new store, whatever happened since, the next create issues an id that no stored record has and that exceeds every stored key |
| Storage.MemStorage.constructor | server/storage.ts:17-20 | the fields start as the initial store, which satisfies the invariant |
| Storage.MemStorage.GetCredentials | server/storage.ts:22-24 | returns the current credentials slot, absent until the first save |
| Storage.MemStorage.SaveCredentials | server/storage.ts:26-29 | the slot becomes the payload, under id 1 unless the payload carries its own id; the schedules, their order and `currentId` are unchanged |
| Storage.MemStorage.GetSchedules | server/storage.ts:31-33 | returns the stored records in insertion order, which is ascending id order, one per key and nothing else |
| Storage.MemStorage.CreateSchedule | server/storage.ts:35-40 | post-increments `currentId` and stores the payload under the old value; the new id was unused; the new state is `Create` of the old one |
| Storage.MemStorage.UpdateSchedule | server/storage.ts:42-49 | fails with the not-found error exactly on an absent id, leaving the store unchanged; otherwise stores and returns the merged record in place; the new state is `Update` of the old one |
| Storage.MemStorage.DeleteSchedule | server/storage.ts:51-53 | removes the id if present and is a no-op otherwise; `currentId` and the credentials are unchanged |
| Base64.UrlCharSpec | client/src/pages/login.tsx:78-79 | each sextet maps to a character of the base64url alphabet, and `UrlValue` maps that character back to the sextet |
| Base64.CharCodesSpec | client/src/pages/login.tsx:77 | `String.fromCharCode` of bytes is a binary string whose character codes are those bytes |
| Base64.CharCodesInjective | client/src/pages/login.tsx:84 | two binary strings with the same character codes are equal |
| Base64.ReplaceAllConcat | client/src/pages/login.tsx:78-79 | a global replace of one character distributes over concatenation |
| Base64.RemoveAllConcat | client/src/pages/login.tsx:80 | removing every `=` distributes over concatenation |
| Base64.UrlSafeEncode | client/src/pages/login.tsx:77-80 | the three replacements applied to `btoa` output equal unpadded base64url encoding of the same bytes |
| Base64.UrlEncodeLength | client/src/pages/login.tsx:77-80 | unpadded base64url of n bytes has ceil(4n/3) characters |
| Base64.UrlEncodeAlphabet | client/src/pages/login.tsx:77-80 | every character of the encoding is in the base64url alphabet, with no padding |
| Base64.UrlDecodeEncode | client/src/pages/login.tsx:77-80 | decoding the encoding of any byte sequence gives the bytes back |
| Base64.UrlEncodeDecode | client/src/pages/login.tsx:77-80 | every string the decoder accepts is the encoding of what it decodes to |
| Base64.UrlCodec | client/src/pages/login.tsx:77-80 | decoding `s` gives `bs` if and only if `bs` encodes to `s` |
| Base64.UrlEncodeInjective | client/src/pages/login.tsx:77-80 | distinct byte sequences have distinct encodings |
| Pkce.GenerateCodeVerifier | client/src/pages/login.tsx:74-81 | the verifier of 32 random bytes has 43 base64url characters and decodes back to those bytes |
| Pkce.GenerateCodeChallenge | client/src/pages/login.tsx:83-88 | there is a challenge exactly when every character code is at most 255, which is when `btoa` does not throw; it then has ceil(4n/3) base64url characters and decodes to the verifier's own character codes |
| Pkce.ChallengeOfVerifier | client/src/pages/login.tsx:28-31 | every generated verifier has a challenge of 58 characters that decodes to the verifier's characters |
| Pkce.VerifierInjective | client/src/pages/login.tsx:74-81 | distinct random bytes give distinct verifiers |
| Pkce.ChallengeInjective | client/src/pages/login.tsx:83-88 | distinct verifiers give distinct challenges |
| Pkce.ChallengeIsNotS256 | client/src/pages/login.tsx:40-41 | the challenge sent with method "S256" never equals the S256 challenge of any SHA-256 digest, because their lengths are 58 and 43 |
| Pkce.S256Challenge | client/src/pages/login.tsx:83-88 | the challenge section 4.2 of RFC 7636 prescribes, from the digest bytes: 43 base64url characters that decode to the digest |
| Tesla.ToStatus | client/src/lib/tesla.ts:81-86 | the application's four status fields carry the provider's `battery_level`, `charging_state`, `time_to_full_charge` and `charge_limit_soc` |
| Tesla.GetVehicleStatus | client/src/lib/tesla.ts:43-91 | no request goes out without a truthy token ("Not authenticated"); the first request lists vehicles with that token; the "401" marker comes exactly from a 401 on the list request; the data request is sent exactly when the list body names a first vehicle, and for that vehicle only; a status comes back exactly when the data reply is OK and carries a charge state, and it is that charge state under the application's names |
| Tesla.OnlyFirstVehicle | client/src/lib/tesla.ts:61-68 | two data endpoints that agree on the first vehicle give the same outcome |
| Tesla.ListFailures | client/src/lib/tesla.ts:53-63 | a non-OK list status gives the "401" marker on 401 and "Failed to get vehicles" otherwise; a list without a first vehicle gives "No vehicles found"; neither sends the data request |
| Tesla.ErrorsRethrown | client/src/lib/tesla.ts:49-90 | the errors the code only rethrows come out unchanged: a rejected list request, or an OK list body that is not JSON, after the list request alone; once a first vehicle is known, a rejected data request, an OK data body that is not JSON, and a data body without `response` |
| Tesla.DataFailures | client/src/lib/tesla.ts:66-79 | once a first vehicle is known, both requests are sent; a non-OK data status, 401 included, gives "Failed to get vehicle data", and a missing charge state gives "No charge state data available" |
| Tesla.BrowserStorage.GetItem | client/src/lib/tesla.ts:10 | returns the stored value, or nothing for an absent key |
| Tesla.BrowserStorage.RemoveItem | client/src/lib/tesla.ts:39 | the key is gone and every other entry is unchanged |
| Tesla.ExchangeCollapses | client/src/lib/tesla.ts:15-36 | as written, tokens come back exactly on a 2xx reply with a JSON body; a rejected request and every non-OK status become "Failed to authenticate with Tesla"; the reply never yields the verifier error |
| Tesla.ExchangeJsonEscapes | client/src/lib/tesla.ts:33-36 | as written, a 2xx body that is not JSON fails with the parser's error, not the generic one; with the response awaited it fails with the generic one |
| Tesla.ExchangeReplyAwaited | client/src/lib/tesla.ts:28-36 | with `return await`, every failure is "Failed to authenticate with Tesla", and the tokens come back exactly on a 2xx reply with a JSON body, as before |
| Tesla.ExchangeCodeForTokens | client/src/lib/tesla.ts:9-41 | a missing or empty verifier fails with "Code verifier not found", sends nothing and leaves the storage untouched; otherwise it sends grant type "authorization_code", client id "ownerapi", the code, the stored verifier and the fixed redirect URI; the result is the reply as the `try`/`catch` treats it, and the verifier is removed whatever the outcome |

## Left out

- Randomness: `crypto.getRandomValues` becomes the `random` parameter of `GenerateCodeVerifier`.
- SHA-256 is not computed. `S256Challenge` takes the digest as a parameter.
- The network:
  - each `fetch` reply is an input;
  - request URLs and headers are named by the request constructors (`ListVehicles`,
    `GetVehicleData`, `TokenRequest`), not spelled out;
  - `console.error` logging is not modelled;
  - `response.text()` in the failed-exchange branch only builds a message that the `catch`
    discards, so it is not modelled.
- JSON bodies:
  - The model assumes each parsed body is an object of the expected shape.
  - A `response` that is not an array, a vehicle entry with no `id`, and a charge state with
    missing or mistyped fields are not modelled.
  - A body that is not JSON is modelled (`None`).
- Concurrency and the `async`/`Promise` plumbing are not modelled. Each operation is one
  atomic step, which holds here because `MemStorage` never awaits inside a method.
- Float values: `time_to_full_charge` is carried as an opaque 64-bit pattern and never
  computed on.
- Tesla.GetVehicleStatus: the rethrown errors carry no message in the model, only their kind
  and, for a network rejection, its reason. These are a network rejection, a non-JSON body and
  a data body without `response`. Their outcomes are stated by `Tesla.ErrorsRethrown`.
- Tesla.ExchangeCodeForTokens: the token body is modelled as the three fields the caller reads.
- The caller calls `exchangeCodeForTokens` on the server, where `localStorage` does not exist.
  That deployment is not modelled: storage is always present.
- `initiateAuth`, `handleTeslaCallback` and the login redirect (client/src/pages/login.tsx:18-45)
  are not modelled.
  - The `Math.random` state parameter and the URL building are left out.
  - Storing the verifier under "code_verifier" is left out too.
  - Only the challenge and its announced method enter the model, through `Pkce.ChallengeIsNotS256`.
- Routes, request validation and the UI are not part of this model. This covers
  server/routes.ts, the `parseInt` of ids (NaN ids), the zod schemas, home.tsx and the
  components.
- The schedule payload carries every column it picks. The zod insert schema makes the defaulted
  `enabled` column optional. `MemStorage` applies no defaults, so a create without `enabled`
  stores a record without it; the model has no such record. The credentials payload keeps its
  optional `id`, which is modelled.
- Integer ids are unbounded. `currentId++` on a JavaScript number stops being exact above
  2^53, which the model does not capture.

## Findings

| source | as written | input that shows it | evidently intended | confidence | as-written member | corrected member |
|---|---|---|---|---|---|---|
| client/src/pages/login.tsx:83-88 | The challenge is the base64url encoding of the verifier's characters, with no hash, yet line 41 announces `code_challenge_method` "S256". | Any verifier. Its challenge has 58 characters, while every S256 challenge has 43. | The base64url encoding of the SHA-256 digest of the verifier, as section 4.2 of RFC 7636 prescribes. | high (proved; not executed) | Pkce.ChallengeIsNotS256 | Pkce.S256Challenge |
| client/src/lib/tesla.ts:33 | `return response.json()` is not awaited inside the `try`. When parsing fails, the rejection escapes the `catch`, so the error is not replaced by "Failed to authenticate with Tesla". | A 200 reply whose body is not JSON. | `return await response.json()`: every failure of the exchange becomes the generic error. | medium (proved; not executed) | Tesla.ExchangeJsonEscapes | Tesla.ExchangeReplyAwaited |
