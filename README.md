# OAuth2 token endpoint front-end, modelled in Dafny

The system is an HTTP front-end for the OAuth2 token endpoint (`POST /token`).
For each request it reads four form values: `grant_type`, `username`,
`password` and `refresh_token`. It authenticates the client from the
`Authorization` header using HTTP Basic credentials: section 2.3.1 of RFC 6749,
with the scheme from RFC 7617. It then sends an access-token request to an
authorization backend over RPC and turns the backend's answer into the HTTP
response.

This model covers the request-handling logic of `main.go`:

- `checkEmpty`, which turns the empty string into "absent";
- `readBasicAuth`, which parses the credentials;
- the `/token` handler closure, which picks the response.

Go strings are byte strings, so every string here is a `seq<byte>`.

Modules, one per component:

- `GoStrings` (`go_strings.dfy`): the byte type and the two standard-library
  operations the code uses. These are `strings.Index` with a one-byte
  separator (`IndexByte`) and `strings.SplitN(s, sep, 2)` (`SplitN2`).
- `Base64` (`base64.dfy`): `base64.StdEncoding.DecodeString`, which is
  section 4 of RFC 4648 as Go applies it:
  - carriage returns and line feeds are skipped anywhere in the input;
  - padding is required;
  - the unused low bits before the padding need not be zero.

  The module also has the matching encoder, and proves that decoding an
  encoded value gives it back.
- `BasicAuth` (`basic_auth.dfy`): `CheckEmpty`, `ReadBasicAuth`, a
  characterisation of every failure case, and the round trip with the header
  a client builds (`BasicHeader`).
- `TokenEndpoint` (`token_endpoint.dfy`): the handler in two forms.
  - `HandleToken` is a function. It maps the form, the header, the backend's
    behaviour and the external status mapping to the response. Its result
    also lists the backend calls made, so "no backend call" is
    `calls == []`.
  - `ServeToken` is the handler as the Go closure runs it, step by step. It
    acts on a request context (`Context`: status, headers, body, aborted) and
    on a backend client (`AuthService`, which records its calls). It is proved
    to write exactly the response `HandleToken` gives and to make exactly the
    calls `HandleToken` lists.
- `Wrappers` (`wrappers.dfy`): `Option` for Go's nil-able `*string` and
  `Result` for `(value, error)` returns.

Collaborators that are parameters rather than code:

- The backend's behaviour is a function `BackendCall -> BackendOutcome`. Its
  outcome is a transport fault, a granted token, or a refusal with an OAuth2
  error object.
- `oauth2.ErrorHttpResponseCode` is an uninterpreted function
  `errorStatus: Bytes -> int`.
- A missing `Authorization` header is the empty string, which is what
  `Header.Get` returns for it.

Three behaviours of the code worth stating outright:

- `oauth2.ErrorHttpResponseCode` is external, so no table from OAuth2 error
  code to HTTP status is assumed. The model keeps the mapping abstract and
  proves only that the handler uses its result as the status.
- A payload such as ":secret" is accepted as a client with an absent id and
  a present secret (`BasicAuth.CredentialsSplit` with an empty id); it is
  not a format error.
- The backend receives plain strings, not optional ones: `client.GetId()`
  and `client.GetSecret()` read an absent value as "", so an absent
  credential reaches the backend as "".

## Model

| member | source | states |
|---|---|---|
| `GoStrings.IndexByte` | main.go:69 | The result is -1 exactly when the separator does not occur. Otherwise it is the position of its first occurrence: the byte there is the separator and none comes before it. |
| `GoStrings.SplitN2` | main.go:69-70 | `SplitN(s, sep, 2)` gives one part, `s` itself, exactly when `sep` does not occur. Otherwise it gives two parts, `s == head + [sep] + tail`, with no `sep` in `head`. |
| `GoStrings.SplitN2AtFirst` | main.go:77 | Splitting `head + [sep] + tail`, where `head` has no `sep`, gives `[head, tail]`, even when `tail` contains `sep`. |
| `Base64.EncodeSextet` | main.go:73 | The encoder's alphabet character for a six-bit value is decoded back to that value by the decode table. |
| `Base64.AlphabetBijection` | main.go:73 | The decode table maps a byte to `v` exactly when the encoder writes that byte for `v`. |
| `Base64.StripNewlines` | main.go:73 | The result has no CR or LF and is no longer than the input. It keeps every other byte of the input, adds no byte, and leaves an input without line breaks unchanged. |
| `Base64.Unpack` | main.go:73 | Four six-bit values hold three bytes. |
| `Base64.DecodeQuantum` | main.go:73-76 | A decoded quantum gives 1 to 3 bytes, and exactly 3 unless it is the last. Every one of its characters is in the alphabet or is '='. The first two are in the alphabet; a '=' third character is followed by '='; a '=' fourth character only ends the input. It gives 3 bytes exactly when the fourth is not '=', and 1 exactly when the third is '='. |
| `Base64.PaddingAtEnd` | main.go:73-76 | In an accepted input no '=' stands before the last two characters, and a '=' second-to-last character is followed by '='. |
| `Base64.DecodeQuanta` | main.go:73-76 | A successful decode needs a length that is a multiple of four and only alphabet characters or '='. It yields between 3·(n/4)−2 and 3·(n/4) bytes. |
| `Base64.DecodeString` | main.go:73-76 | The decode fails whenever a byte outside the alphabet, '=', CR and LF occurs. It also fails when the input without line breaks is not padded to a multiple of four. |
| `Base64.EncodeToString` | main.go:73 | The output has 4·⌈n/3⌉ characters, each in the alphabet or '='. |
| `Base64.UnpackOfPack` | main.go:73 | Splitting three bytes into four six-bit values and joining them again gives the same three bytes. |
| `Base64.DecodeQuantaOfEncode` | main.go:73 | Decoding the quanta the encoder writes gives the encoded bytes back. |
| `Base64.DecodeEncode` | main.go:73 | Round trip: `DecodeString(EncodeToString(b)) == Some(b)` for all bytes `b`. |
| `Base64.DecodeFinalPair` | main.go:73 | A lone final "xy==" decodes to the single byte `4x + y/16`. |
| `Base64.UnusedBitsIgnored` | main.go:73 | Non-strict decoding: final quanta "xy==" and "xy'==" decode alike when `y` and `y'` share their top two bits. |
| `Base64.DecodeFinalTriple` | main.go:73 | A lone final "xyz=" decodes to the two bytes `4x + y/16` and `16(y mod 16) + z/4`. |
| `Base64.UnusedBitsIgnoredPair` | main.go:73 | Non-strict decoding: final quanta "xyz=" and "xyz'=" decode alike when `z` and `z'` share their top four bits. |
| `Base64.StripSkipsLineBreak` | main.go:73 | Deleting one CR or LF from the input does not change the input with line breaks removed. |
| `Base64.LineBreakIgnored` | main.go:73-76 | Deleting one CR or LF anywhere, even inside a quantum, does not change the decode result. |
| `BasicAuth.CheckEmpty` | main.go:84-92 | The result is absent exactly for "". Read back with "" as the fallback, it gives the input. It is never a present "". |
| `BasicAuth.CheckEmptyOnto` | main.go:84-92 | Every option other than a present "" is `CheckEmpty` of exactly the string it reads back as. |
| `BasicAuth.ReadBasicAuth` | main.go:67-82 | On success, neither the id nor the secret is a present "". |
| `BasicAuth.Parameter` | main.go:69-73 | A header with the Basic scheme is "Basic" + " " + its parameter. |
| `BasicAuth.SplitBasic` | main.go:69-70 | A header starting with "Basic " splits on its first space into "Basic" and the rest. |
| `BasicAuth.SchemeRejected` | main.go:68-72 | The result is `SchemeInvalid` exactly when the header does not start with the case-sensitive "Basic ". This covers a missing or empty header and one without a space. |
| `BasicAuth.EncodingRejected` | main.go:73-76 | With the Basic scheme, the result is `EncodingInvalid` exactly when the parameter does not base64-decode. |
| `BasicAuth.FormatRejected` | main.go:77-80 | With a decoding parameter, the result is `FormatInvalid` exactly when the decoded payload has no colon. |
| `BasicAuth.CredentialsSplit` | main.go:77-81 | When the payload is `id + ":" + secret` and `id` has no colon, the client is `(CheckEmpty(id), CheckEmpty(secret))`. The secret keeps any colons it contains. |
| `BasicAuth.Rejected` | main.go:63-82 | The header is refused exactly when it lacks the Basic scheme, its parameter does not decode, or the decoded payload has no colon. |
| `BasicAuth.ReadBasicHeader` | main.go:67-82 | Round trip: the header a client builds (`"Basic " + base64(id ":" secret)`, with no colon in `id`) reads back as `(CheckEmpty(id), CheckEmpty(secret))`. |
| `BasicAuth.AcceptedIsCanonical` | main.go:67-82 | Every accepted header reads the same as the client-built header for the credentials read from it, with absent values sent as "". |
| `BasicAuth.NoColonRejected` | main.go:77-80 | An encoded payload without a colon gives `FormatInvalid`. |
| `BasicAuth.OnlyIdRejected` | main.go:77-80 | The Basic header for the payload "onlyid" gives `FormatInvalid`. |
| `TokenEndpoint.RequestOf` | main.go:27-44 | No field of the request is a present "". Each field read back with "" as the fallback is the corresponding `PostFormValue`. |
| `TokenEndpoint.HandleToken` | main.go:26-59 | The backend is called exactly when the credentials are accepted, and at most once. Without a call, the response is 401 with `WWW-Authenticate: Basic realm="oauth2"`. Every call has a normalised request, and its id and secret, with "" read back as absent, are exactly the credentials read. A token body is exactly the backend's granted token. An error body is exactly the backend's error object. |
| `TokenEndpoint.ChallengeWhenMalformed` | main.go:32-37 | The response is the 401 challenge with no backend call exactly when the header lacks the Basic scheme, does not decode, or has a payload without a colon. |
| `TokenEndpoint.ForwardsRequest` | main.go:39-46 | With accepted credentials, the one backend call carries the id and secret read, an absent one as "" (`GetId`, `GetSecret`), and the request built from the form. Reading "" back as absent recovers the credentials read. |
| `TokenEndpoint.TransportFaultIs500` | main.go:47-50 | A transport fault gives 500 with no body and no header. |
| `TokenEndpoint.GrantedIs200` | main.go:51-53 | Success gives 200 with the backend's token unchanged as the body, and no header. |
| `TokenEndpoint.RefusedIsErrorStatus` | main.go:54-57 | Failure gives `ErrorHttpResponseCode(code)` as the status when it is non-negative (200 otherwise, as gin writes no negative status), with the error object unchanged and no header. |
| `TokenEndpoint.EmptyIsAbsent` | main.go:27-44 | A form value "" and a missing form value lead to the same exchange. |
| `TokenEndpoint.GrantedForBasicClient` | main.go:26-59 | A client sending its Basic header, with a backend that grants a token, gets exactly one call with exactly that id and secret and its form, and a 200 response with that token as the body. |
| `TokenEndpoint.RefusedForBasicClient` | main.go:26-59 | The same client, with a backend that refuses (for example `invalid_grant`), gets the status `ErrorHttpResponseCode` gives the code (as gin writes it), with the error object as the body. |
| `TokenEndpoint.PasswordGrantRequest` | main.go:27-44 | The form `grant_type=password&username=u&password=p` becomes a request with the refresh token absent. |
| `TokenEndpoint.ClientAPasswordGrant` | main.go:26-59 | Client "clientA" with secret "secretA" asking for a password grant gets 200 with the granted token. |
| `TokenEndpoint.OnlyIdChallenged` | main.go:32-37 | The payload "onlyid" gets the 401 challenge and no backend call. |
| `TokenEndpoint.Context.constructor` | main.go:26 | A new request context is unanswered: status 200, no headers, no body, not aborted. |
| `TokenEndpoint.Context.SetHeader` | main.go:34 | Sets one response header and changes nothing else. |
| `TokenEndpoint.Context.Abort` | main.go:35 | Writes a non-negative status, marks the chain aborted, and leaves headers and body unchanged. |
| `TokenEndpoint.Context.Json` | main.go:53-57 | Writes the status when it is non-negative, as `Abort` does, and the body, and leaves headers and the aborted flag unchanged. |
| `TokenEndpoint.AuthService.constructor` | main.go:21 | A new backend client has made no calls. |
| `TokenEndpoint.AuthService.GetAccessToken` | main.go:46 | Appends the call to the call log and returns the backend's answer to it. |
| `TokenEndpoint.ServeToken` | main.go:26-59 | The step-by-step handler writes exactly the response `HandleToken` gives and makes exactly the backend calls it lists. It aborts the handler chain exactly when it writes no body. |

## Left out

- Process start-up (`main.go:17-25, 60`): logger flags, `gin.Default()`, creating the nanomsg backend client and `r.Run(":8080")`. This is framework set-up and network I/O.
- `middleware/http.go` (`NoCache`): two fixed header writes with no logic.
- The backend RPC itself and its nanomsg transport. The backend's behaviour is the function `AuthService.answer`. Each request makes at most one call, so one fixed function loses nothing within a request.
- `oauth2.ErrorHttpResponseCode`: it lives in an external package that is not part of this model, so it stays an uninterpreted parameter. The model hard-codes no status table.
- JSON serialisation and the `Content-Type` header that `c.JSON` writes. The body is the value handed to `c.JSON`.
- Request-body parsing (URL decoding, multipart): the form is taken as already parsed (`url.Values`). `PostFormValue` is modelled as "first value or empty".
- Header keys: `Header().Set` stores the canonical key `Www-Authenticate`. The model keeps the key as the code writes it, `WWW-Authenticate`, since header keys are not canonicalised anywhere in the model.
- Header lookup: `Header.Get` finds the first `Authorization` value by canonical key. The model takes that value, with "" for a missing header.
- The protobuf response type: the model takes the backend answer to be a success or a failure. A response with `success` false and no error object (which Go's nil-safe getters would map to `ErrorHttpResponseCode("")` and a `null` body) is not modelled.
- `Base64.DecodeString` is a function written from the behaviour of Go's `StdEncoding`. It is not a transcription of Go's loop-based decoder, because that library source is not part of this model. The partial output Go returns next to an error is not modelled, since `readBasicAuth` discards it.
- Concurrency between requests: each request is handled independently and shares no mutable state.
