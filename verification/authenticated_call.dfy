/** `SendAuthenticatedHTTPRequest`: credentials gate, nonce, envelope,
    headers, transport, classification. The transport and the clock are
    parameters. */
module AuthenticatedCall {
  import opened Fallible
  import opened GeminiTypes
  import opened Nonce
  import opened Signing
  import opened Classify

  /** The wire format of a signed request: a `verb` request to the
      account's base URL + "/v1/" + `path`, an empty body, and the three
      headers: the account's API key, the base64 of the JSON envelope
      (built with the account's current counter), and the hex HMAC of that
      payload keyed by the account's secret. */
  predicate SignedFor(p: Primitives, g: Account, verb: string, path: string,
                      params: Option<JsonObject>, req: HttpRequest)
  {
    var env := BuildEnvelope(path, g.nonce, params);
    && p.jsonEncode(env).Some?
    && req.verb == verb
    && req.url == g.apiUrl + "/v1/" + path
    && req.body == ""
    && req.headers.Keys == {ApiKeyHeader, PayloadHeader, SignatureHeader}
    && req.headers[ApiKeyHeader] == g.apiKey
    && req.headers[PayloadHeader] == p.base64Encode(p.jsonEncode(env).value)
    && req.headers[SignatureHeader] == p.hexEncode(p.hmacSha384(req.headers[PayloadHeader], g.apiSecret))
  }

  /** Everything up to the transport: the account afterwards and the
      request to send, or the error that stopped the call. */
  function Prepare(p: Primitives, g: Account, verb: string, path: string,
                   params: Option<JsonObject>, clock: Int64): (r: (Account, Result<HttpRequest, Error>))
    ensures !g.authenticatedApiSupport ==> r == (g, Failure(CredentialsNotSet(g.name)))
    ensures g.authenticatedApiSupport ==> r.0 == g.(nonce := NextNonce(g.nonce, clock))
    ensures r.1.Failure? && g.authenticatedApiSupport ==>
      r.1.error == EncodeFailed && p.jsonEncode(BuildEnvelope(path, r.0.nonce, params)).None?
    ensures r.1.Success? ==> SignedFor(p, r.0, verb, path, params, r.1.value)
  {
    if !g.authenticatedApiSupport then
      (g, Failure(CredentialsNotSet(g.name)))
    else
      var g' := g.(nonce := NextNonce(g.nonce, clock));
      var envelope := BuildEnvelope(path, g'.nonce, params);
      match Sign(p, g'.apiKey, g'.apiSecret, envelope)
      case Failure(e) => (g', Failure(e))
      case Success(headers) => (g', Success(HttpRequest(verb, TargetUrl(g'.apiUrl, path), headers, "")))
  }

  /** What an authenticated call leaves behind: the account, the request
      handed to the transport (`None` when the call stopped before), and
      the decoded value or the error. */
  datatype CallResult<T> = CallResult(account: Account, sent: Option<HttpRequest>, result: Result<T, Error>)

  /** What an authenticated call of `verb` on `path` with `params` does,
      stated step by step: without credentials support nothing changes and
      the call fails; otherwise the counter follows the nonce rule, a
      request in the signed wire format is sent exactly when the envelope
      encodes, a transport error comes back unchanged, and a received body
      is classified. */
  ghost predicate IsAuthenticatedCall<T>(p: Primitives, decode: string -> Result<T, string>, g: Account,
                                         verb: string, path: string, params: Option<JsonObject>, clock: Int64,
                                         transport: HttpRequest -> Result<string, string>, r: CallResult<T>)
  {
    var counter := NextNonce(g.nonce, clock);
    var encodes := p.jsonEncode(BuildEnvelope(path, counter, params)).Some?;
    && r.account == (if g.authenticatedApiSupport then g.(nonce := counter) else g)
    && (r.sent.Some? <==> g.authenticatedApiSupport && encodes)
    && (r.sent.Some? ==> SignedFor(p, r.account, verb, path, params, r.sent.value))
    && (!g.authenticatedApiSupport ==> r.result == Failure(CredentialsNotSet(g.name)))
    && (g.authenticatedApiSupport && !encodes ==> r.result == Failure(EncodeFailed))
    && (r.sent.Some? && transport(r.sent.value).Failure? ==>
          r.result == Failure(Transport(transport(r.sent.value).error)))
    && (r.sent.Some? && transport(r.sent.value).Success? ==>
          r.result == ClassifyResponse(p.probeError, decode, transport(r.sent.value).value))
  }

  /** The whole authenticated call. The account that comes back is the one
      `Prepare` produced, whatever the transport or the venue answered: a
      nonce, once taken, is not given back. Transport failures and strict
      decode failures are passed on unchanged; a value is produced only
      when the body is no venue error and decodes. */
  function SendAuthenticated<T>(p: Primitives, decode: string -> Result<T, string>, g: Account,
                                verb: string, path: string, params: Option<JsonObject>,
                                clock: Int64, transport: HttpRequest -> Result<string, string>)
    : (r: CallResult<T>)
    ensures IsAuthenticatedCall(p, decode, g, verb, path, params, clock, transport, r)
    ensures r.account == Prepare(p, g, verb, path, params, clock).0
    ensures r.sent.Some? ==> r.sent.value == Prepare(p, g, verb, path, params, clock).1.value
    ensures r.result.Success? ==>
      && r.sent.Some?
      && transport(r.sent.value).Success?
      && decode(transport(r.sent.value).value) == Success(r.result.value)
      && !IsVenueError(p.probeError(transport(r.sent.value).value))
  {
    var (g', request) := Prepare(p, g, verb, path, params, clock);
    match request
    case Failure(e) => CallResult(g', None, Failure(e))
    case Success(req) =>
      match transport(req)
      case Failure(cause) => CallResult(g', Some(req), Failure(Transport(cause)))
      case Success(body) => CallResult(g', Some(req), ClassifyResponse(p.probeError, decode, body))
  }

  /** One call's inputs, for reasoning about a run of calls. */
  datatype Call = Call(verb: string, path: string, params: Option<JsonObject>, clock: Int64)

  /** The account after a run of authenticated calls (transport and
      response do not affect it). */
  function AfterCalls(p: Primitives, g: Account, calls: seq<Call>): (r: Account)
    ensures r.(nonce := g.nonce) == g
    decreases |calls|
  {
    if |calls| == 0 then g
    else
      var c := calls[0];
      AfterCalls(p, Prepare(p, g, c.verb, c.path, c.params, c.clock).0, calls[1..])
  }

  /** The counter value after each call of a run: the value the call's
      envelope was built with. */
  function CounterValues(p: Primitives, g: Account, calls: seq<Call>): (r: seq<Int64>)
    ensures |r| == |calls|
    decreases |calls|
  {
    if |calls| == 0 then []
    else
      var c := calls[0];
      var g' := Prepare(p, g, c.verb, c.path, c.params, c.clock).0;
      [g'.nonce] + CounterValues(p, g', calls[1..])
  }

  function Clocks(calls: seq<Call>): (r: seq<Int64>)
    ensures |r| == |calls|
    ensures forall i :: 0 <= i < |calls| ==> r[i] == calls[i].clock
  {
    seq(|calls|, i requires 0 <= i < |calls| => calls[i].clock)
  }

  /** The i-th counter value is the nonce of the account after the first
      i + 1 calls, which is the account whose nonce the i-th call signs
      with (see `SignedFor` in the contract of `Prepare`). */
  lemma {:induction false} CounterValuesAreAccountNonces(p: Primitives, g: Account, calls: seq<Call>)
    ensures forall i :: 0 <= i < |calls| ==>
              CounterValues(p, g, calls)[i] == AfterCalls(p, g, calls[..i + 1]).nonce
    decreases |calls|
  {
    if |calls| > 0 {
      var c := calls[0];
      var g' := Prepare(p, g, c.verb, c.path, c.params, c.clock).0;
      CounterValuesAreAccountNonces(p, g', calls[1..]);
      forall i | 0 <= i < |calls|
        ensures CounterValues(p, g, calls)[i] == AfterCalls(p, g, calls[..i + 1]).nonce
      {
        assert calls[..i + 1][0] == c;
        assert calls[..i + 1][1..] == calls[1..][..i];
        if i > 0 {
          assert CounterValues(p, g, calls)[i] == CounterValues(p, g', calls[1..])[i - 1];
        }
      }
    }
  }

  /** With credentials enabled, the counter values of a run are those of
      the nonce rule, one clock reading per call. */
  lemma {:induction false} CounterValuesFollowRule(p: Primitives, g: Account, calls: seq<Call>)
    requires g.authenticatedApiSupport
    ensures CounterValues(p, g, calls) == IssuedNonces(g.nonce, Clocks(calls))
    decreases |calls|
  {
    if |calls| > 0 {
      var c := calls[0];
      var g' := Prepare(p, g, c.verb, c.path, c.params, c.clock).0;
      CounterValuesFollowRule(p, g', calls[1..]);
      assert Clocks(calls)[1..] == Clocks(calls[1..]);
    }
  }

  /** The envelope each call of a run builds, and signs when it gets that
      far: a call without credentials or whose envelope does not encode
      builds one but signs nothing. */
  function SignedEnvelopes(p: Primitives, g: Account, calls: seq<Call>): (r: seq<JsonObject>)
    ensures |r| == |calls|
    ensures forall i :: 0 <= i < |calls| ==> "nonce" in r[i] && "request" in r[i]
    ensures forall i :: 0 <= i < |calls| && (calls[i].params.None? || "nonce" !in calls[i].params.value) ==>
              r[i]["nonce"] == JInt(CounterValues(p, g, calls)[i])
    ensures forall i :: 0 <= i < |calls| && calls[i].params.Some? && "nonce" in calls[i].params.value ==>
              r[i]["nonce"] == calls[i].params.value["nonce"]
  {
    var counters := CounterValues(p, g, calls);
    seq(|calls|, i requires 0 <= i < |calls| => BuildEnvelope(calls[i].path, counters[i], calls[i].params))
  }

  /** Replay protection end to end: once the first counter value is
      positive and the int64 range is not exhausted, and as long as no
      caller passes its own `nonce` parameter, the nonces signed by a run
      of calls are the counter values and strictly increase, whatever the
      transport answered. */
  lemma SignedNoncesStrictlyIncrease(p: Primitives, g: Account, calls: seq<Call>)
    requires g.authenticatedApiSupport
    requires |calls| > 0
    requires NextNonce(g.nonce, calls[0].clock) > 0
    requires NextNonce(g.nonce, calls[0].clock) + |calls| - 1 <= MaxInt64
    requires forall i :: 0 <= i < |calls| ==> calls[i].params.None? || "nonce" !in calls[i].params.value
    ensures var envs := SignedEnvelopes(p, g, calls);
            var ns := CounterValues(p, g, calls);
            && (forall i :: 0 <= i < |calls| ==> envs[i]["nonce"] == JInt(ns[i]))
            && (forall i, j :: 0 <= i < j < |ns| ==> ns[i] < ns[j])
  {
    CounterValuesFollowRule(p, g, calls);
    NoncesStrictlyIncrease(g.nonce, Clocks(calls));
  }

  /** A call refused at the credentials gate leaves the account, nonce
      included, exactly as it was. */
  lemma CredentialsGateKeepsNonce<T>(p: Primitives, decode: string -> Result<T, string>, g: Account,
                                     verb: string, path: string, params: Option<JsonObject>,
                                     clock: Int64, transport: HttpRequest -> Result<string, string>)
    requires !g.authenticatedApiSupport
    ensures var r := SendAuthenticated(p, decode, g, verb, path, params, clock, transport);
            r.account == g && r.sent.None?
  {
  }

  /** The envelope signed into the payload header carries the path and the
      updated counter whenever the caller did not override them. */
  lemma PayloadCarriesPathAndNonce(p: Primitives, g: Account, verb: string, path: string,
                                   params: Option<JsonObject>, clock: Int64)
    requires g.authenticatedApiSupport
    requires params.None? || ("request" !in params.value && "nonce" !in params.value)
    ensures var (g', req) := Prepare(p, g, verb, path, params, clock);
            var env := BuildEnvelope(path, g'.nonce, params);
            && env["request"] == JString("/v1/" + path)
            && env["nonce"] == JInt(NextNonce(g.nonce, clock))
            && (req.Success? ==>
                  && p.jsonEncode(env).Some?
                  && req.value.headers[PayloadHeader] == p.base64Encode(p.jsonEncode(env).value))
  {
  }
}
