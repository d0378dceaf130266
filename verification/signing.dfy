/** Building the signed request: the envelope, the three authentication
    headers and the target URL. JSON encoding, base64, HMAC-SHA384 and hex
    encoding are uninterpreted: they are handed in as function values, and
    the properties here are about which inputs reach them. */
module Signing {
  import opened Fallible
  import opened GeminiTypes

  /** The encoding and MAC primitives of the common package. `jsonEncode`
      answers `None` where Go's encoder returns an error. `hmacSha384` takes
      the message first and the key second (HMAC of RFC 2104 over the
      SHA-384 of FIPS 180-4). `probeError` is the lenient JSON decode of a
      response into the error shape, `None` where Go's decoder fails. */
  datatype Primitives = Primitives(
    jsonEncode: JsonObject -> Option<string>,
    base64Encode: string -> string,
    hmacSha384: (string, string) -> string,
    hexEncode: string -> string,
    probeError: string -> Option<ErrorCapture>)

  /** The value of the envelope's `request` field: "/v" + version + "/" + path. */
  function RequestPath(path: string): (r: string)
    ensures r == "/v1/" + path
  {
    "/v" + ApiVersion + "/" + path
  }

  /** Where the request is sent. */
  function TargetUrl(apiUrl: string, path: string): (r: string)
    ensures |r| == |apiUrl| + 4 + |path|
    ensures r[..|apiUrl|] == apiUrl && r[|apiUrl|..] == RequestPath(path)
  {
    apiUrl + "/v1/" + path
  }

  /** The envelope: `request` and `nonce`, then every caller parameter
      copied over it, so a caller key named `request` or `nonce` wins.
      Nil parameters (`None`) leave exactly the two generated fields. */
  function BuildEnvelope(path: string, nonce: Int64, params: Option<JsonObject>): (r: JsonObject)
    ensures params.None? ==> r == map["request" := JString(RequestPath(path)), "nonce" := JInt(nonce)]
    ensures params.Some? ==> r.Keys == {"request", "nonce"} + params.value.Keys
    ensures params.Some? ==> forall k :: k in params.value ==> r[k] == params.value[k]
    ensures "request" in r && "nonce" in r
    ensures params.None? || "request" !in params.value ==> r["request"] == JString(RequestPath(path))
    ensures params.None? || "nonce" !in params.value ==> r["nonce"] == JInt(nonce)
  {
    var generated := map["request" := JString(RequestPath(path)), "nonce" := JInt(nonce)];
    match params
    case None => generated
    case Some(ps) => generated + ps
  }

  /** The three authentication headers: the API key as is, the base64 of
      the JSON envelope, and the hex of the HMAC of that base64 text keyed
      by the secret. A JSON encoding failure is the only error. */
  function Sign(p: Primitives, apiKey: string, apiSecret: string, envelope: JsonObject)
    : (r: Result<map<string, string>, Error>)
    ensures r.Failure? <==> p.jsonEncode(envelope).None?
    ensures r.Failure? ==> r.error == EncodeFailed
    ensures r.Success? ==>
      && r.value.Keys == {ApiKeyHeader, PayloadHeader, SignatureHeader}
      && r.value[ApiKeyHeader] == apiKey
      && r.value[PayloadHeader] == p.base64Encode(p.jsonEncode(envelope).value)
      && r.value[SignatureHeader] == p.hexEncode(p.hmacSha384(r.value[PayloadHeader], apiSecret))
  {
    match p.jsonEncode(envelope)
    case None => Failure(EncodeFailed)
    case Some(json) =>
      var payload := p.base64Encode(json);
      Success(map[ApiKeyHeader := apiKey,
                  PayloadHeader := payload,
                  SignatureHeader := p.hexEncode(p.hmacSha384(payload, apiSecret))])
  }

  // ---------------------------------------------------------------------
  // Properties of the signer.

  /** The signed `request` field is exactly the part of the URL after the
      base URL, unless a caller parameter overwrote it. */
  lemma SignedPathMatchesUrl(apiUrl: string, path: string, nonce: Int64, params: Option<JsonObject>)
    requires params.None? || "request" !in params.value
    ensures var env := BuildEnvelope(path, nonce, params);
            var url := TargetUrl(apiUrl, path);
            env["request"] == JString(url[|apiUrl|..])
  {
  }

  /** The signature is fixed by the payload and the secret alone: two
      signings of one envelope with one secret agree on payload and
      signature whatever API keys they carry. */
  lemma SignatureDependsOnlyOnPayloadAndSecret(p: Primitives, key1: string, key2: string,
                                               secret: string, envelope: JsonObject)
    requires p.jsonEncode(envelope).Some?
    ensures var h1 := Sign(p, key1, secret, envelope).value;
            var h2 := Sign(p, key2, secret, envelope).value;
            h1[PayloadHeader] == h2[PayloadHeader] && h1[SignatureHeader] == h2[SignatureHeader]
  {
  }

  /** The payload header does not depend on the secret, and the API key
      header does not depend on the envelope. */
  lemma HeadersSeparateKeyAndSecret(p: Primitives, key: string, secret1: string, secret2: string,
                                    env1: JsonObject, env2: JsonObject)
    requires p.jsonEncode(env1).Some? && p.jsonEncode(env2).Some?
    ensures Sign(p, key, secret1, env1).value[PayloadHeader] == Sign(p, key, secret2, env1).value[PayloadHeader]
    ensures Sign(p, key, secret1, env1).value[ApiKeyHeader] == Sign(p, key, secret2, env2).value[ApiKeyHeader]
  {
  }

  /** A caller parameter named `nonce` replaces the counter in the signed
      envelope: the protection against replay then rests with the caller. */
  lemma CallerNonceOverridesCounter(path: string, nonce: Int64, params: JsonObject, v: Json)
    requires params == map["nonce" := v]
    ensures BuildEnvelope(path, nonce, Some(params))["nonce"] == v
    ensures BuildEnvelope(path, nonce, Some(params))["request"] == JString("/v1/" + path)
  {
  }
}
