/** Entities shared by every part of the Gemini authenticated-request
    pipeline: the int64 counter type, JSON values, errors, the acting
    account and the outgoing HTTP request. */
module GeminiTypes {
  import opened Fallible

  const MinInt64: int := -0x8000_0000_0000_0000
  const MaxInt64: int := 0x7fff_ffff_ffff_ffff

  /** Go's `int64`. */
  type Int64 = x: int | MinInt64 <= x <= MaxInt64

  /** Base URLs and API version segment of the venue. */
  const ProductionUrl: string := "https://api.gemini.com"
  const SandboxUrl: string := "https://api.sandbox.gemini.com"
  const ApiVersion: string := "1"

  /** Roles a key is assigned when it is created at the venue. */
  const RoleTrader: string := "trader"
  const RoleFundManager: string := "fundmanager"

  /** Names of the three authentication headers. */
  const ApiKeyHeader: string := "X-GEMINI-APIKEY"
  const PayloadHeader: string := "X-GEMINI-PAYLOAD"
  const SignatureHeader: string := "X-GEMINI-SIGNATURE"

  /** The values that the request envelope and the caller's parameters hold. */
  datatype Json = JString(s: string) | JInt(i: int) | JBool(b: bool)

  /** A JSON object keyed by field name (Go's `map[string]interface{}`). */
  type JsonObject = map<string, Json>

  /** Every error the pipeline returns. Go returns plain `error` strings;
      the constructors keep the distinct causes apart, and the comment gives
      the message text each one carries in the source. */
  datatype Error =
    | SessionIdInUse                    // "sessionID already being used"
    | SessionNotSet                     // "session not set"
    | IncorrectRole                     // "incorrect role for APIKEY cannot use this function"
    | CredentialsNotSet(exchange: string)  // the exchange package's warning, formatted with the name
    | EncodeFailed                      // "SendAuthenticatedHTTPRequest: Unable to JSON request"
    | Transport(cause: string)          // the transport's own error, unchanged
    | Venue(message: string)            // the `message` field of a venue error body
    | Decode(cause: string)             // the strict decoder's own error, unchanged

  /** The fields of the exchange base that the pipeline reads and writes. */
  datatype Account = Account(
    name: string,
    apiKey: string,
    apiSecret: string,
    apiUrl: string,
    nonce: Int64,
    authenticatedApiSupport: bool)

  /** What is handed to the HTTP transport. */
  datatype HttpRequest = HttpRequest(
    verb: string,
    url: string,
    headers: map<string, string>,
    body: string)

  /** The lenient shape probed for in every response body. */
  datatype ErrorCapture = ErrorCapture(result: string, reason: string, message: string)

  /** Reading a Go map at a missing key yields the value type's zero value. */
  function ZeroRead<K, V>(m: map<K, V>, k: K, zero: V): V
  {
    if k in m then m[k] else zero
  }
}
