/** The authenticated wrappers whose choices matter: the role gate and
    parameters of `NewOrder`, and the path and parameters `CancelOrders`,
    `GetDepositAddress` and `WithdrawCrypto` hand to the authenticated call.
    Float amounts reach the model already formatted as decimal text. */
module Endpoints {
  import opened Fallible
  import opened GeminiTypes
  import opened Sessions
  import opened Nonce
  import opened Signing
  import opened AuthenticatedCall

  const OrderNewPath: string := "order/new"
  const CancelAllPath: string := "order/cancel/all"
  const CancelSessionPath: string := "order/cancel/session"

  /** The one field of the venue's order reply the model reads. */
  datatype Order = Order(orderId: Int64)

  /** The parameters of a new limit order. */
  function OrderParams(symbol: string, amount: string, price: string, side: string, orderType: string)
    : (r: JsonObject)
    ensures r.Keys == {"symbol", "amount", "price", "side", "type"}
    ensures r["symbol"] == JString(symbol) && r["amount"] == JString(amount)
    ensures r["price"] == JString(price) && r["side"] == JString(side)
    ensures r["type"] == JString(orderType)
  {
    map["symbol" := JString(symbol), "amount" := JString(amount), "price" := JString(price),
        "side" := JString(side), "type" := JString(orderType)]
  }

  /** Places a limit order. Only a trader-role session may: any other role,
      or no session at all, is refused before the authenticated call, so
      the account (nonce included) is untouched and nothing is sent. On
      success the answer is the venue's order ID. */
  function NewOrder(reg: Registry, p: Primitives, decode: string -> Result<Order, string>, g: Account,
                    symbol: string, amount: string, price: string, side: string, orderType: string,
                    clock: Int64, transport: HttpRequest -> Result<string, string>)
    : (r: CallResult<Int64>)
    ensures IsCorrectSession(reg, g, RoleTrader).Fail? ==>
      r == CallResult(g, None, Failure(IsCorrectSession(reg, g, RoleTrader).error))
    ensures IsCorrectSession(reg, g, RoleTrader) == Pass ==>
      var params := OrderParams(symbol, amount, price, side, orderType);
      && r.account == Prepare(p, g, "POST", OrderNewPath, Some(params), clock).0
      && (r.sent.Some? ==> SignedFor(p, r.account, "POST", OrderNewPath, Some(params), r.sent.value))
    ensures IsCorrectSession(reg, g, RoleTrader) == Pass ==>
      var c := SendAuthenticated(p, decode, g, "POST", OrderNewPath,
                                 Some(OrderParams(symbol, amount, price, side, orderType)), clock, transport);
      && r.sent == c.sent
      && (r.result.Failure? <==> c.result.Failure?)
      && (c.result.Failure? ==> r.result.error == c.result.error)
    ensures r.result.Success? ==>
      && r.sent.Some?
      && transport(r.sent.value).Success?
      && decode(transport(r.sent.value).value).Success?
      && r.result.value == decode(transport(r.sent.value).value).value.orderId
  {
    match IsCorrectSession(reg, g, RoleTrader)
    case Fail(e) => CallResult(g, None, Failure(e))
    case Pass =>
      var params := OrderParams(symbol, amount, price, side, orderType);
      var c := SendAuthenticated(p, decode, g, "POST", OrderNewPath, Some(params), clock, transport);
      match c.result
      case Failure(e) => CallResult(c.account, c.sent, Failure(e))
      case Success(order) => CallResult(c.account, c.sent, Success(order.orderId))
  }

  /** Which cancel endpoint is used: this session's orders, or all orders
      of the account. */
  function CancelOrdersPath(cancelBySession: bool): (r: string)
    ensures r == CancelSessionPath <==> cancelBySession
    ensures r == CancelAllPath <==> !cancelBySession
  {
    if cancelBySession then CancelSessionPath else CancelAllPath
  }

  /** Cancels orders; the envelope carries no parameters. */
  function CancelOrders<T>(p: Primitives, decode: string -> Result<T, string>, g: Account,
                           cancelBySession: bool, clock: Int64,
                           transport: HttpRequest -> Result<string, string>)
    : (r: CallResult<T>)
    ensures IsAuthenticatedCall(p, decode, g, "POST", CancelOrdersPath(cancelBySession), None, clock, transport, r)
  {
    SendAuthenticated(p, decode, g, "POST", CancelOrdersPath(cancelBySession), None, clock, transport)
  }

  /** The path for a new deposit address of `currency`. */
  function DepositAddressPath(currency: string): (r: string)
    ensures |r| == |currency| + 19
    ensures r[..8] == "deposit/" && r[8..8 + |currency|] == currency
    ensures r[8 + |currency|..] == "/newAddress"
  {
    "deposit" + "/" + currency + "/" + "newAddress"
  }

  /** Requests a new deposit address. The label argument is accepted but
      never sent; the envelope carries no parameters. */
  function GetDepositAddress<T>(p: Primitives, decode: string -> Result<T, string>, g: Account,
                                depositAddressLabel: string, currency: string, clock: Int64,
                                transport: HttpRequest -> Result<string, string>)
    : (r: CallResult<T>)
    ensures IsAuthenticatedCall(p, decode, g, "POST", DepositAddressPath(currency), None, clock, transport, r)
  {
    SendAuthenticated(p, decode, g, "POST", DepositAddressPath(currency), None, clock, transport)
  }

  /** The path for a withdrawal of `currency`. */
  function WithdrawPath(currency: string): (r: string)
    ensures |r| == 9 + |currency|
    ensures r[..9] == "withdraw/" && r[9..] == currency
  {
    "withdraw/" + currency
  }

  /** The parameters a withdrawal is built with. */
  function WithdrawParams(address: string, amount: string): (r: JsonObject)
    ensures r.Keys == {"address", "amount"}
    ensures r["address"] == JString(address) && r["amount"] == JString(amount)
  {
    map["address" := JString(address), "amount" := JString(amount)]
  }

  /** Withdrawal as written: the address and amount map is built and then
      dropped, and the call is made with nil parameters. */
  function WithdrawCrypto<T>(p: Primitives, decode: string -> Result<T, string>, g: Account,
                             address: string, currency: string, amount: string, clock: Int64,
                             transport: HttpRequest -> Result<string, string>)
    : (r: CallResult<T>)
    ensures IsAuthenticatedCall(p, decode, g, "POST", WithdrawPath(currency), None, clock, transport, r)
  {
    var _ := WithdrawParams(address, amount);
    SendAuthenticated(p, decode, g, "POST", WithdrawPath(currency), None, clock, transport)
  }

  /** Withdrawal as evidently intended: the address and amount are signed
      into the envelope. */
  function WithdrawCryptoIntended<T>(p: Primitives, decode: string -> Result<T, string>, g: Account,
                                     address: string, currency: string, amount: string, clock: Int64,
                                     transport: HttpRequest -> Result<string, string>)
    : (r: CallResult<T>)
    ensures IsAuthenticatedCall(p, decode, g, "POST", WithdrawPath(currency),
                                Some(WithdrawParams(address, amount)), clock, transport, r)
  {
    SendAuthenticated(p, decode, g, "POST", WithdrawPath(currency), Some(WithdrawParams(address, amount)), clock, transport)
  }

  // ---------------------------------------------------------------------
  // Properties of the wrappers.

  /** A non-trader session never reaches the nonce: `NewOrder` returns the
      account unchanged and sends nothing. */
  lemma NewOrderRoleGateKeepsNonce(reg: Registry, p: Primitives, decode: string -> Result<Order, string>,
                                   g: Account, symbol: string, amount: string, price: string,
                                   side: string, orderType: string, clock: Int64,
                                   transport: HttpRequest -> Result<string, string>)
    requires reg.isSession && RoleOf(reg, g.apiKey) != RoleTrader
    ensures var r := NewOrder(reg, p, decode, g, symbol, amount, price, side, orderType, clock, transport);
            r.account.nonce == g.nonce && r.sent.None? && r.result == Failure(IncorrectRole)
  {
  }

  /** A session registered as fund manager and bound through `Session` is
      refused by `NewOrder`. */
  lemma NewOrderRefusesFundManager(reg: Registry, p: Primitives, decode: string -> Result<Order, string>,
                                   g: Account, id: int, apiKey: string, apiSecret: string, hb: bool,
                                   symbol: string, amount: string, price: string, side: string, orderType: string,
                                   clock: Int64, transport: HttpRequest -> Result<string, string>)
    requires id !in reg.apiKeys
    ensures var reg' := AddSession(reg, id, apiKey, apiSecret, RoleFundManager, hb).0;
            var g' := Session(reg', g, id).0;
            NewOrder(reg', p, decode, g', symbol, amount, price, side, orderType, clock, transport)
              == CallResult(g', None, Failure(IncorrectRole))
  {
  }

  /** A session registered as trader and bound through `Session` gets past
      the role gate: `NewOrder` then does what the authenticated call on
      "order/new" with the order parameters does, so the nonce advances
      and a request is sent exactly when credentials are enabled and the
      envelope encodes. */
  lemma NewOrderAdmitsTrader(reg: Registry, p: Primitives, decode: string -> Result<Order, string>,
                             g: Account, id: int, apiKey: string, apiSecret: string, hb: bool,
                             symbol: string, amount: string, price: string, side: string, orderType: string,
                             clock: Int64, transport: HttpRequest -> Result<string, string>)
    requires id !in reg.apiKeys
    ensures var reg' := AddSession(reg, id, apiKey, apiSecret, RoleTrader, hb).0;
            var g' := Session(reg', g, id).0;
            var params := Some(OrderParams(symbol, amount, price, side, orderType));
            var r := NewOrder(reg', p, decode, g', symbol, amount, price, side, orderType, clock, transport);
            && r.account == (if g'.authenticatedApiSupport then g'.(nonce := NextNonce(g'.nonce, clock)) else g')
            && (r.sent.Some? <==>
                  g'.authenticatedApiSupport && p.jsonEncode(BuildEnvelope(OrderNewPath, NextNonce(g'.nonce, clock), params)).Some?)
            && (r.sent.Some? ==> SignedFor(p, r.account, "POST", OrderNewPath, params, r.sent.value))
  {
    var reg' := AddSession(reg, id, apiKey, apiSecret, RoleTrader, hb).0;
    var g' := Session(reg', g, id).0;
    BoundSessionHasItsRole(reg, g, id, apiKey, apiSecret, RoleTrader, hb, RoleTrader);
    var params := Some(OrderParams(symbol, amount, price, side, orderType));
    var c := SendAuthenticated(p, decode, g', "POST", OrderNewPath, params, clock, transport);
    assert IsAuthenticatedCall(p, decode, g', "POST", OrderNewPath, params, clock, transport, c);
  }

  /** The envelope a new order signs (see the contract of `NewOrder`) keeps
      the generated `request` and `nonce` next to the order fields: no order
      field is named like a generated one. */
  lemma OrderEnvelopeKeepsGenerated(nonce: Int64, symbol: string, amount: string, price: string,
                                    side: string, orderType: string)
    ensures var env := BuildEnvelope(OrderNewPath, nonce, Some(OrderParams(symbol, amount, price, side, orderType)));
            && env.Keys == {"request", "nonce", "symbol", "amount", "price", "side", "type"}
            && env["request"] == JString("/v1/order/new")
            && env["nonce"] == JInt(nonce)
            && env["symbol"] == JString(symbol)
            && env["type"] == JString(orderType)
  {
    var params := OrderParams(symbol, amount, price, side, orderType);
    assert "request" !in params && "nonce" !in params by {
      assert |"request"| == 7 && |"nonce"| == 5;
    }
  }

  /** The currency can be read back from the deposit path, so different
      currencies give different paths. */
  lemma DepositPathInjective(c1: string, c2: string)
    requires DepositAddressPath(c1) == DepositAddressPath(c2)
    ensures c1 == c2
  {
  }

  /** The deposit label has no effect on the call. */
  lemma DepositIgnoresLabel<T>(p: Primitives, decode: string -> Result<T, string>, g: Account,
                               label1: string, label2: string, currency: string, clock: Int64,
                               transport: HttpRequest -> Result<string, string>)
    ensures GetDepositAddress(p, decode, g, label1, currency, clock, transport)
         == GetDepositAddress(p, decode, g, label2, currency, clock, transport)
  {
  }

  /** As written, the withdrawal request does not depend on the address or
      the amount: two withdrawals to different addresses sign and send the
      same thing. */
  lemma WithdrawDropsAddressAndAmount<T>(p: Primitives, decode: string -> Result<T, string>, g: Account,
                                         addr1: string, addr2: string, amt1: string, amt2: string,
                                         currency: string, clock: Int64,
                                         transport: HttpRequest -> Result<string, string>)
    ensures WithdrawCrypto(p, decode, g, addr1, currency, amt1, clock, transport)
         == WithdrawCrypto(p, decode, g, addr2, currency, amt2, clock, transport)
    ensures BuildEnvelope(WithdrawPath(currency), NextNonce(g.nonce, clock), None).Keys == {"request", "nonce"}
  {
  }

  /** The corrected withdrawal signs the address and amount next to the
      generated fields. */
  lemma WithdrawIntendedSignsAddress(currency: string, nonce: Int64, address: string, amount: string)
    ensures var env := BuildEnvelope(WithdrawPath(currency), nonce, Some(WithdrawParams(address, amount)));
            && env.Keys == {"request", "nonce", "address", "amount"}
            && env["address"] == JString(address)
            && env["amount"] == JString(amount)
            && env["request"] == JString("/v1/withdraw/" + currency)
            && env["nonce"] == JInt(nonce)
  {
  }
}
