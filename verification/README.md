# http-utils in Dafny

A model of the two pieces of logic in the http-utils helper library:

- the **header builder** (`headers(initial?)` and the `Headers` class): a map from
  header name to header value, copied in at construction, changed by chained
  `withBearer`, `withLanguage`, `withContentTypeJson`, `withContentType` and
  `withHeader` calls, and read out by `export`;
- the **fetch error** (`FetchError`): the status of a failed response, an optional
  payload of any kind, and the message `"Request failed with status code "`
  followed by the decimal status.

The source's builder mutates one map and returns itself; the model is
functional: `Headers.Builder` holds an immutable `map<string, string>` and each
`with*` member returns the next builder. `Export` returns that map. Optional string
arguments are `Maybe<string>` (`Absent` for an omitted argument), and the source's truthiness test on them is
`Headers.Truthy`: present and non-empty. Header names are Dafny strings and
compare exactly and case-sensitively. The source stores headers in a plain
object, where assigning to the name `__proto__` reaches the inherited prototype
setter and stores nothing unless the object already has an own entry of that
name (one copied from the initial map); `Headers.Settable` models that case.

`HeaderChain` describes whole chains: a `Call` datatype, `Run` (calls applied in
order), the reference definition `Expected` (the last effective write of each key,
else the initial entry), and `Build`, a loop performing the calls one after
another on a builder as the in-place source does. `Decimal` renders integers
as a minus sign (for negatives) and digits without leading zeros, which is how
a template string renders an integral number of magnitude up to 2^53, and
parses them back.
`FetchErrors` holds the error record, its message derivation and its inverse
`StatusOf`. The payload is a type parameter `D`, so the model stores it
unchanged whatever its kind; the examples use a `Payload` datatype covering the
kinds the test suite passes (text, integers, booleans, null, lists, plain objects).

Files: `optional.dfy` (`Maybe`), `content_types.dfy` (the JSON media type),
`headers.dfy`, `header_chain.dfy`, `decimal.dfy`, `fetch_error.dfy`.

## Model

| member | source | states |
|---|---|---|
| Headers.New | src/headers.ts:4-13 | a fresh builder exports exactly the initial map, or the empty map when none is given |
| Headers.Builder.WithBearer | src/headers.ts:15-18 | `Authorization` always becomes "Bearer " + token, verbatim; no other key changes; the key set gains only `Authorization` |
| Headers.Builder.WithLanguage | src/headers.ts:20-25 | `Accept-Language` is set to the language iff it is present and non-empty; otherwise the builder is unchanged; no other key changes |
| Headers.Builder.WithContentTypeJson | src/headers.ts:27-29 | equals `WithContentType` with the JSON media type and stores "application/json" under `Content-Type` |
| Headers.Builder.WithContentType | src/headers.ts:31-34 | `Content-Type` is set to the given value unconditionally; no other key changes |
| Headers.Builder.WithHeader | src/headers.ts:36-41 | the key, as spelled, is set iff the value is present and non-empty and the key is not `__proto__` without an own entry; otherwise the builder is unchanged; no other key changes; no key is ever removed |
| Headers.Builder.Export | src/headers.ts:43-45 | the exported map is a full copy: a fresh builder over it equals the builder exported from |
| Headers.LastWriteWins | src/headers.test.ts:107-116 | for any values, empty ones included, two bearer tokens or two content types keep the second; for custom headers the same holds whenever the second value is non-empty |
| Headers.ExampleSingleCalls | src/headers.test.ts:6-89 | each single-call test case, and the fresh builders with and without an initial map, export exactly the expected maps, with empty and absent values adding nothing |
| Headers.ExampleChains | src/headers.test.ts:91-153 | the chains of several calls, the override, the two initial-map chains and the case-sensitive `content-type`/`Content-Type` pair export exactly the expected maps |
| Headers.ExampleProtoKey | src/headers.ts:36-41 | `__proto__` is not stored on a fresh builder, but an own `__proto__` entry from the initial map is overwritten |
| Headers.FullChainExample | src/headers.test.ts:164-185 | the full chain from an initial map exports exactly the five expected entries; empty and absent values add nothing |
| HeaderChain.Apply | src/headers.ts:15-41 | a call either leaves the builder unchanged (suppressed) or performs exactly its one keyed write; no call creates or removes a `__proto__` entry |
| HeaderChain.ProtoWrittenOnlyIfOwn | src/headers.ts:36-41 | a chain writes `__proto__` only when the initial map already holds that key |
| HeaderChain.RunAppend | src/headers.ts:15-41 | running a chain with one more call equals performing that call on the shorter chain's result |
| HeaderChain.RunMeetsExpected | src/headers.ts:8-45 | after any chain, each key holds the value of the last call that wrote it, or else its initial entry, or is absent |
| HeaderChain.Build | src/headers.ts:8-45 | the in-place loop over a chain exports, for every key, the last written value or else the initial entry |
| HeaderChain.InitialEntriesSurvive | src/headers.ts:11-13 | an initial entry that no call writes is exported unchanged |
| HeaderChain.RunKeys | src/headers.ts:15-41 | a key is exported iff it was an initial key or some call wrote it; nothing is deleted |
| HeaderChain.Overwrite | src/headers.ts:15-41 | any call writing a key is overridden by a later call writing the same key, whichever operation it came from |
| HeaderChain.Commute | src/headers.ts:15-41 | calls writing different keys can be performed in either order |
| Decimal.NatToDecimal | src/FetchError.ts:8 | the rendering of a natural number is a canonical digit string (no leading zero) whose value is the number |
| Decimal.IntToDecimal | src/FetchError.ts:8 | the rendering of an integer is canonical, with a minus sign only for negatives, and its value is the integer |
| Decimal.ParseInt | src/FetchError.ts:8 | parsing accepts exactly the canonical renderings and returns the integer whose rendering is the input |
| Decimal.LeadingNonZeroPositive | src/FetchError.ts:8 | a digit string starting with a non-zero digit has a positive value |
| Decimal.CanonicalUnique | src/FetchError.ts:8 | every canonical digit string is the rendering of its own value, so the rendering is the unique one |
| Decimal.CanonicalIntUnique | src/FetchError.ts:8 | every canonical signed string is the rendering of its own value |
| Decimal.ThreeDigits | src/FetchError.ts:8 | a three-digit status renders as its hundreds, tens and units digits, in that order |
| Decimal.IntToDecimalInjective | src/FetchError.ts:8 | two integers have the same rendering iff they are equal |
| FetchErrors.Message | src/FetchError.ts:8 | the message is the fixed prefix followed by a canonical decimal string whose value is the status |
| FetchErrors.StatusOfMessage | src/FetchError.ts:8 | a string parses back to status s iff it is exactly the message derived from s |
| FetchErrors.New | src/FetchError.ts:7-12 | for any status and any payload, the error keeps the response's status, keeps the payload as given (absent when none), and its message parses back to the status |
| FetchErrors.MessageDeterminesStatus | src/FetchError.ts:8-10 | two errors have the same message iff their statuses are equal, whatever their payloads |
| FetchErrors.ThreeDigitMessage | src/FetchError.ts:8 | a three-digit status yields the prefix followed by its hundreds, tens and units digits |
| FetchErrors.ExampleMessages | src/FetchError.test.ts:47-65 | the messages for statuses 400, 401, 403, 404, 500, 502 and 503 are the prefix followed by those digits |
| FetchErrors.ExampleEdgeMessages | src/FetchError.test.ts:142-157 | statuses 100, 204, 418 and 599 are accepted and give the prefix followed by those digits |
| FetchErrors.ExampleErrors | src/FetchError.test.ts:26-45 | with no payload, status 404 gives exactly (404, absent, the 404 message); an object payload with status 400 gives exactly (400, that payload, the 400 message); for status 422, every payload is kept with status 422 and the same message |
| FetchErrors.ExamplePayloadKinds | src/FetchError.test.ts:67-95 | string, object, list, number, boolean and null payloads are stored unchanged, and the status stays 422 |

## Left out

- Error subclassing, `instanceof`, the `name` property, stack traces and throw/catch: host-runtime features with no value semantics.
- The mock `Response` object and its body methods: only the integer `status` is read, so `Response` has that one field.
- Key order: the exported object lists integer-like names first in ascending order, then the others in first-insertion order; a Dafny map has no order, so only the key-to-value contents are modelled.
- Strings: Dafny strings hold Unicode scalar values while the host's strings are UTF-16 code units, so header names and values with lone surrogates are outside the model.
- Object identity: `export` returning a new object, the builder not aliasing the caller's initial map, and `data` being the same reference. Dafny values have no identity, so only value equality is modelled. In particular, the test that the caller's initial map is not mutated holds trivially here; only the expected export is stated.
- FetchErrors.New: the status is an integer, rendered digit for digit. Non-integral numbers and NaN are not modelled. Nor are magnitudes above 2^53, where the host prints the shortest digits that round-trip its double, or magnitudes from 10^21, where it uses exponent notation. A response status is an unsigned 16-bit integer, so real statuses are inside the model.
- General truthiness: the optional arguments are only ever strings, so "present and non-empty" is the write condition.
- Header name and value grammar: the source performs no validation, and neither does the model.
- `contenttypes.ts` is not part of this model; the JSON media type is the constant "application/json" as the tests state. The `index.ts` re-exports are left out.
