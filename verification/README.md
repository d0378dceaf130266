# Gemini authenticated-request pipeline

A Dafny model of how the Gemini exchange client in `exchanges/gemini/gemini.go`
issues authenticated REST calls. All state is explicit and immutable, and every
step is a pure transition:

- **Session registry** (`Sessions`). The four package-level maps are session ID → API key,
  session ID → secret, API key → role and session ID → heartbeat. Next to them is the
  `IsSession` flag. `AddSession` registers a session, `Session` binds an account to a
  registered session, `Sandbox` switches the base URL, and `IsCorrectSession` is the
  role guard.
- **Nonce rule** (`Nonce`). A counter of zero is seeded from the clock. Any other value
  is incremented as a Go `int64`, so it wraps at the top of the range.
- **Signer** (`Signing`). It builds the envelope: `request` and `nonce`, with the
  caller's parameters merged last. It then builds the three `X-GEMINI-*` headers and the
  target URL.
- **Classifier** (`Classify`). It probes the body for `result`/`reason`/`message`, then
  runs the strict decode.
- **Authenticated call** (`AuthenticatedCall`). It chains the steps: credentials gate,
  nonce, signing, transport, classification. It also covers a run of calls: with credentials
  enabled, once the first counter value is positive and until the int64 range runs out,
  and when no caller passes its own `nonce` parameter, the nonces they sign strictly
  increase.
- **Wrappers** (`Endpoints`). This covers the role gate and parameters of `NewOrder`, and
  the path and parameters that `CancelOrders`, `GetDepositAddress` and `WithdrawCrypto`
  pass on.

Some things are parameters of the model:

- JSON encoding, base64, HMAC-SHA384 (HMAC of RFC 2104 over SHA-384 of FIPS 180-4) and
  hex encoding are uninterpreted function values in a `Primitives` record. So is the
  lenient decode into the error shape.
- The strict decoder is a function parameter.
- The HTTP transport is a function from the outgoing request to either a body or an
  error.
- The wall clock (`time.Now().UnixNano()`) is an `Int64` parameter.

Behaviours of the code worth knowing:

- A venue error carries only the `message` field. The `reason` is dropped, and an empty
  message gives an empty error.
- The "session not set" failure of the role guard depends only on `IsSession`. After the
  first registration, an API key with no role reads as the empty role.
- `Session` on an unknown ID returns nil, but it still resets the base URL to production.
- The role is stored under the API key, not under the session ID. A later session that
  reuses a key replaces the role of the earlier one (see `Sessions.SharedKeyRoleOverwrite`).
- The strict decoder's error is returned unchanged, not wrapped with the raw body.
- The nonce advances before JSON encoding. A call that fails at encoding, at the
  transport or at the venue has still consumed its nonce.

## Model

| member | source | states |
|---|---|---|
| `Sessions.AddSession` | exchanges/gemini/gemini.go:79-100 | A used ID fails with the "already used" error and leaves all four maps unchanged. A fresh ID stores key, secret and heartbeat under the ID and the role under the API key, and sets `IsSession`. |
| `Sessions.AddSessionPreservesValid` | exchanges/gemini/gemini.go:82-97 | Registration keeps the three ID-keyed maps on the same key set and keeps roles held for exactly the registered API keys. |
| `Sessions.EmptyRegistryValid` | exchanges/gemini/gemini.go:60-67 | The initial registry (nil maps, `IsSession` false) has that shape. |
| `Sessions.DuplicateKeepsFirstRegistration` | exchanges/gemini/gemini.go:89-92 | A second registration under a used ID fails, and the first registration's key, secret, heartbeat and role survive. |
| `Sessions.AddSessionKeepsOtherSessions` | exchanges/gemini/gemini.go:94-97 | Registering a fresh ID leaves every other session's key, secret and heartbeat as they were. Their roles also survive unless the API key is reused. |
| `Sessions.SharedKeyRoleOverwrite` | exchanges/gemini/gemini.go:96 | From any registry, two fresh sessions sharing an API key with different roles and any heartbeats: the earlier session, once bound, answers to the later session's role and not its own. |
| `Sessions.Session` | exchanges/gemini/gemini.go:145-156 | The base URL is always reset to production. The result is non-nil iff the ID is registered. An unknown ID leaves the credentials unchanged. A known ID installs exactly the registered key and secret. |
| `Sessions.AddThenBind` | exchanges/gemini/gemini.go:145-156 | Registering then binding an ID gives the registered key and secret on production, with the nonce untouched. |
| `Sessions.Sandbox` | exchanges/gemini/gemini.go:159-162 | Sets the sandbox URL and changes no other field. |
| `Sessions.SessionResetsSandbox` | exchanges/gemini/gemini.go:145-162 | `Sandbox` before `Session` is undone by it. `Sandbox` after `Session` sticks. |
| `Sessions.IsCorrectSession` | exchanges/gemini/gemini.go:258-266 | Passes iff a session was ever added and the role stored under the account's key ("" when absent) equals the required role. Otherwise it fails with "session not set" or "incorrect role". |
| `Sessions.BoundSessionHasItsRole` | exchanges/gemini/gemini.go:258-266 | A freshly registered and bound session passes the guard for its own role and fails it for every other role. |
| `Sessions.GuardClosedBeforeFirstSession` | exchanges/gemini/gemini.go:259-261 | Before any registration, every role check fails with "session not set". |
| `Sessions.UnregisteredKeyReadsEmptyRole` | exchanges/gemini/gemini.go:262-264 | Once sessions exist, an unregistered key passes a check for "" and fails one for trader. |
| `Nonce.Inc64` | exchanges/gemini/gemini.go:411 | The increment is int64 addition, wrapping from the maximum to the minimum. |
| `Nonce.NextNonce` | exchanges/gemini/gemini.go:408-412 | A zero counter becomes the clock reading, so a positive reading seeds a positive value. A non-zero counter below the maximum becomes one larger. |
| `Nonce.IssuedNonces` | exchanges/gemini/gemini.go:408-412 | A run of calls issues one value per call, and the first value follows the rule. |
| `Nonce.IssuedNoncesConsecutive` | exchanges/gemini/gemini.go:408-412 | Once the first issued value is positive, and until the range runs out, the issued values are consecutive and ignore later clock readings. |
| `Nonce.NoncesStrictlyIncrease` | exchanges/gemini/gemini.go:408-412 | Under the same conditions the issued values strictly increase, so none repeats. |
| `Nonce.NonceWrapsAtMax` | exchanges/gemini/gemini.go:411 | At the int64 maximum the next value is the minimum, which is smaller. |
| `Nonce.ZeroClockLeavesCounterUnseeded` | exchanges/gemini/gemini.go:408-409 | A zero clock reading leaves the counter at zero, so the next call seeds again. |
| `Signing.RequestPath` | exchanges/gemini/gemini.go:416 | The `request` field is "/v1/" followed by the path. |
| `Signing.TargetUrl` | exchanges/gemini/gemini.go:441 | The URL is the base URL followed by exactly the signed request path. |
| `Signing.BuildEnvelope` | exchanges/gemini/gemini.go:414-423 | Nil params give exactly the two keys `request` and `nonce`, with the generated values. Otherwise the keys are those two plus the params' keys, every param value wins, and the generated values remain where no param overrides them. |
| `Signing.CallerNonceOverridesCounter` | exchanges/gemini/gemini.go:419-423 | A caller `nonce` parameter replaces the counter in the signed envelope, and `request` is kept. |
| `Signing.Sign` | exchanges/gemini/gemini.go:425-439 | Fails, with the encode error only, iff JSON encoding fails. Otherwise it yields exactly three headers: APIKEY is the key, PAYLOAD is base64(JSON(envelope)), and SIGNATURE is hex(HMAC(payload, secret)). |
| `Signing.SignatureDependsOnlyOnPayloadAndSecret` | exchanges/gemini/gemini.go:434-439 | One envelope and one secret give the same payload and signature under any API key. |
| `Signing.HeadersSeparateKeyAndSecret` | exchanges/gemini/gemini.go:434-439 | The payload does not depend on the secret. The APIKEY header does not depend on the envelope. |
| `Signing.SignedPathMatchesUrl` | exchanges/gemini/gemini.go:416-441 | Without a caller override, the signed `request` equals the URL after the base URL. |
| `Classify.ClassifyResponse` | exchanges/gemini/gemini.go:450-464 | Fails with a venue error iff the probe decodes, some field is non-empty and `result` is not "ok". That error carries the message. Otherwise the result is the strict decode's value or its error, unchanged. |
| `Classify.OkResultFallsThrough` | exchanges/gemini/gemini.go:451-459 | A body whose result is "ok" always gets the strict decode's answer. |
| `Classify.EmptyOrUndecodableFallsThrough` | exchanges/gemini/gemini.go:450-462 | A body with all three fields empty, or one the probe cannot decode, gets the strict decode's answer. |
| `Classify.VenueErrorWinsOverDecode` | exchanges/gemini/gemini.go:450-457 | A venue error is returned even when the body would also decode strictly. |
| `Classify.VenueErrorDropsReason` | exchanges/gemini/gemini.go:453-455 | Every body whose probe reads a non-ok result, a non-empty reason and an empty message fails with an empty venue message, whatever the reason. |
| `AuthenticatedCall.Prepare` | exchanges/gemini/gemini.go:403-439 | Without credentials support: the account is unchanged and the call fails. Otherwise only the nonce changes, by the nonce rule. The request is then either the encode error or a signed request in exact wire format. |
| `AuthenticatedCall.SendAuthenticated` | exchanges/gemini/gemini.go:403-465 | Without credentials support: nothing changes and the call fails. Otherwise the nonce follows the rule. A request in the signed wire format is sent iff the envelope encodes, and an encode failure is returned otherwise. A transport error comes back unchanged, and a received body is classified. A value is returned only from a non-error body that decodes. |
| `AuthenticatedCall.CredentialsGateKeepsNonce` | exchanges/gemini/gemini.go:404-406 | A call without credentials support leaves the account, nonce included, unchanged and sends nothing. |
| `AuthenticatedCall.PayloadCarriesPathAndNonce` | exchanges/gemini/gemini.go:414-438 | Without caller overrides, the payload encodes an envelope with `request` = "/v1/" + path and `nonce` = the updated counter. |
| `AuthenticatedCall.AfterCalls` | exchanges/gemini/gemini.go:408-412 | A run of calls changes no account field other than the nonce. |
| `AuthenticatedCall.CounterValues` | exchanges/gemini/gemini.go:408-417 | A run of calls leaves one counter value per call. |
| `AuthenticatedCall.CounterValuesFollowRule` | exchanges/gemini/gemini.go:408-412 | With credentials enabled, the counter values of a run are exactly the values the nonce rule issues, one clock reading per call. |
| `AuthenticatedCall.CounterValuesAreAccountNonces` | exchanges/gemini/gemini.go:408-417 | The i-th counter value is the nonce of the account after the first i + 1 calls. That is the account whose nonce the i-th call builds its envelope with. |
| `AuthenticatedCall.SignedEnvelopes` | exchanges/gemini/gemini.go:414-423 | The envelope the i-th call builds (and signs, when it gets that far) has as `nonce` the i-th counter value is the i-th counter value, unless that call passed its own `nonce` parameter, which then wins. |
| `AuthenticatedCall.SignedNoncesStrictlyIncrease` | exchanges/gemini/gemini.go:408-423 | When the first counter value is positive, the range is not exhausted and no call passes its own `nonce` parameter, each signed envelope's `nonce` is that call's counter value, and these values strictly increase whatever the venue answered. |
| `Endpoints.OrderParams` | exchanges/gemini/gemini.go:275-280 | A new order carries exactly symbol, amount, price, side and type, with the given values. |
| `Endpoints.NewOrder` | exchanges/gemini/gemini.go:270-288 | A failed role check returns its error with the account unchanged and nothing sent. A passed check sends what the authenticated call on "order/new" with the order params sends, and returns that call's error unchanged. A success returns the decoded order's ID. |
| `Endpoints.NewOrderRoleGateKeepsNonce` | exchanges/gemini/gemini.go:270-273 | A non-trader role leaves the nonce untouched, sends nothing and fails with "incorrect role". |
| `Endpoints.NewOrderRefusesFundManager` | exchanges/gemini/gemini.go:270-273 | A session registered as fund manager, with any heartbeat, and then bound is refused for every order, sends nothing, and its account is unchanged. |
| `Endpoints.NewOrderAdmitsTrader` | exchanges/gemini/gemini.go:270-286 | For a session registered as trader, with any heartbeat, and then bound, `NewOrder` advances the nonce by the rule. It sends a request signed for "order/new" with the order params iff credentials are enabled and the envelope encodes. |
| `Endpoints.OrderEnvelopeKeepsGenerated` | exchanges/gemini/gemini.go:275-283 | The signed order envelope is exactly `request`, `nonce` and the five order fields, with the generated `request` and `nonce` intact. |
| `Endpoints.CancelOrdersPath` | exchanges/gemini/gemini.go:308-313 | The session-cancel path is chosen iff cancelling by session, and cancel-all iff not. So the two choices are different paths. |
| `Endpoints.CancelOrders` | exchanges/gemini/gemini.go:308-316 | Is the authenticated call of a POST on the chosen path with nil params. The nonce follows the rule, a request is sent iff credentials are enabled and the envelope encodes, and the transport's or the venue's answer is passed on. |
| `Endpoints.DepositAddressPath` | exchanges/gemini/gemini.go:375 | The path is "deposit/", then the currency, then "/newAddress". |
| `Endpoints.DepositPathInjective` | exchanges/gemini/gemini.go:375 | Equal deposit paths imply equal currencies. |
| `Endpoints.GetDepositAddress` | exchanges/gemini/gemini.go:371-376 | Is the authenticated call of a POST on the deposit path with nil params, with the same nonce, sending and result behaviour. |
| `Endpoints.DepositIgnoresLabel` | exchanges/gemini/gemini.go:371-376 | The label argument has no effect on the call. |
| `Endpoints.WithdrawPath` | exchanges/gemini/gemini.go:386 | The path is "withdraw/" followed by the currency. |
| `Endpoints.WithdrawParams` | exchanges/gemini/gemini.go:381-383 | The map that is built holds exactly the address and the amount. |
| `Endpoints.WithdrawCrypto` | exchanges/gemini/gemini.go:379-387 | As written: is the authenticated call of a POST on the withdraw path with nil params. |
| `Endpoints.WithdrawDropsAddressAndAmount` | exchanges/gemini/gemini.go:379-387 | As written: withdrawals to different addresses or amounts are the same call, signed with only `request` and `nonce`. |
| `Endpoints.WithdrawCryptoIntended` | exchanges/gemini/gemini.go:379-387 | Corrected: is the authenticated call of a POST on the withdraw path with the address and amount as params. |
| `Endpoints.WithdrawIntendedSignsAddress` | exchanges/gemini/gemini.go:381-386 | Corrected: the envelope is exactly `request`, `nonce`, `address` and `amount`, with the given values. |

## Left out

- The HTTP transport (`common.SendHTTPRequest`) is a function parameter. Its internals (TLS, status codes, timeouts) are not modelled.
- JSON encode and decode, base64, HMAC-SHA384 and hex encoding are uninterpreted. The common package that implements them is not part of this model.
- The clock is a parameter, not a reading of `time.Now()`.
- The mutex `g.M` and the non-atomic read, set and increment of the nonce are not modelled. They matter only under concurrency, and the model covers single-threaded sequential calls only.
- `Nonce.Inc64`: the nonce package is not part of this model. The increment is taken to be plain int64 addition, with Go's wrap-around.
- Float formatting (`strconv.FormatFloat`) in `NewOrder` and `WithdrawCrypto` is not modelled. Amounts and prices enter as the already-formatted decimal text.
- `Endpoints.NewOrder`: the Go `(0, err)` return on failure is modelled as `Failure(err)` without the placeholder 0.
- `CancelOrders`, `GetDepositAddress` and `WithdrawCrypto` return `response, g.SendAuthenticatedHTTPRequest(...)`. Go does not fix whether `response` is read before or after the call, so the model returns the classified result and not that struct.
- `AuthenticatedCall.SignedNoncesStrictlyIncrease` requires that no call passes its own `nonce` parameter. The code lets such a parameter replace the counter in the signed envelope (see `Signing.CallerNonceOverridesCounter`), and then nothing orders the signed nonces.
- `AuthenticatedCall.SignedNoncesStrictlyIncrease` and `Nonce.NoncesStrictlyIncrease` require that the int64 range is not exhausted. At the maximum the counter wraps, see `Nonce.NonceWrapsAtMax`.
- `Sessions.AddSession`: the model treats "the maps are allocated" as the `IsSession` flag, because `AddSession` is the only writer of both. Code that sets the exported `IsSession` directly is not modelled. On a duplicate ID the contract states that the four maps are unchanged, and that the whole registry is unchanged once `IsSession` is set.
- Verbose logging of the payload and the response is left out: it has no effect on results.
- The text of the "credentials not set" warning is left out. It is a format string of the exchange package, which is not part of this model, so the error carries only the exchange name.
- `SetDefaults` and `Setup` are left out. They are configuration plumbing that ends in `log.Fatal`.
- The public market-data getters (`GetSymbols`, `GetTicker`, `GetOrderbook`, `GetTrades`, `GetAuction`, `GetAuctionHistory`) are left out. They only format URLs and decode. The float parsing and the `currencyPair[0:3]` slice in `GetTicker` go with them.
- The other authenticated wrappers (`CancelOrder`, `GetOrderStatus`, `GetOrders`, `GetTradeHistory`, `GetTradeVolume`, `GetBalances`, `PostHeartbeat`) are left out. They only pick a path and params for the modelled authenticated call.
- The rate-limit constants are left out. They are declared but never enforced.

## Findings

| source | as written | input that shows it | evidently intended | confidence | as-written member | corrected member |
|---|---|---|---|---|---|---|
| exchanges/gemini/gemini.go:379-387 | `WithdrawCrypto` builds a map holding `address` and `amount`, then calls the authenticated request with `nil` params, so neither is signed or sent. | Any withdrawal, e.g. address "A", amount "1", currency "btc": the signed envelope is only `request` and `nonce`, the same as for address "B". | The address and amount are passed as the request params and signed into the envelope. | high; not executed | `Endpoints.WithdrawCrypto` (shown by `Endpoints.WithdrawDropsAddressAndAmount`) | `Endpoints.WithdrawCryptoIntended` (shown by `Endpoints.WithdrawIntendedSignsAddress`) |
