/** The vehicle-API client of client/src/lib/tesla.ts (class TeslaClient).

    The network is not modelled: what `fetch` gives back is an input. `GetVehicleStatus` is a
    function of the access token the client was constructed with, the reply to the vehicle-list
    request and the replies the vehicle-data endpoint would give per vehicle id; it returns the
    status or the error, together with the requests the code issued, in order. The token
    exchange is a method over the browser's `localStorage`, which is a `BrowserStorage` object. */
module Tesla {
  import opened Wrappers
  import opened Schema

  // ---------------------------------------------------------------------------------------
  // HTTP

  /** What a `fetch` call comes to: a rejection (the network failed), or a response with its
      status and its body as `response.json()` parses it (`None` when that rejects). */
  datatype HttpReply<B> = Rejected(reason: string) | Response(status: int, body: Option<B>)

  /** `response.ok`. */
  predicate Ok(status: int) {
    200 <= status <= 299
  }

  // ---------------------------------------------------------------------------------------
  // getVehicleStatus

  /** An element of the vehicle list: a vehicle object, or a falsy value (null, false, 0, ""). */
  datatype VehicleEntry = Falsy | Vehicle(id: int)

  /** The body of `GET /vehicles`; `response` is `None` when the key is missing or null. */
  datatype VehicleList = VehicleList(response: Option<seq<VehicleEntry>>)

  /** The provider's `charge_state` object, under its JSON keys. */
  datatype ChargeState = ChargeState(
    battery_level: int,
    charging_state: string,
    time_to_full_charge: Float64,
    charge_limit_soc: int)

  /** The body of `GET /vehicles/{id}/vehicle_data`; a `None` is a key missing or null. */
  datatype VehicleData = VehicleData(response: Option<DataResponse>)

  datatype DataResponse = DataResponse(charge_state: Option<ChargeState>)

  /** The requests `getVehicleStatus` sends, each with the bearer token. */
  datatype ApiRequest = ListVehicles(token: string) | GetVehicleData(token: string, vehicleId: int)

  /** Errors the code does not raise itself but lets through: the rejection of `fetch`, the
      rejection of `response.json()` on a body that is not JSON, and the TypeError of reading
      `charge_state` from a data body without `response`. */
  datatype Thrown = NetworkError(reason: string) | InvalidJson | MissingDataResponse

  datatype StatusError =
    | NotAuthenticated
    | TokenExpired
    | FailedToGetVehicles
    | NoVehiclesFound
    | FailedToGetVehicleData
    | NoChargeState
    | Rethrown(thrown: Thrown)
  {
    /** The message of an error the code raises itself; "401" is the marker the caller looks
        for to send the user back to the login page. */
    function Message(): string
      requires !Rethrown?
    {
      match this
      case NotAuthenticated => "Not authenticated"
      case TokenExpired => "401"
      case FailedToGetVehicles => "Failed to get vehicles"
      case NoVehiclesFound => "No vehicles found"
      case FailedToGetVehicleData => "Failed to get vehicle data"
      case NoChargeState => "No charge state data available"
    }
  }

  /** The result of `getVehicleStatus` and the requests it sent, in order. */
  datatype StatusOutcome = StatusOutcome(result: Result<VehicleStatus, StatusError>, requests: seq<ApiRequest>)

  /** `!this.accessToken` is false: a token was given and it is not the empty string. */
  predicate HasToken(accessToken: Option<string>) {
    accessToken.Some? && accessToken.value != ""
  }

  /** The id of `vehicles.response[0]` when that is a vehicle. */
  function FirstVehicle(list: VehicleList): Option<int> {
    match list.response
    case Some(entries) => if |entries| > 0 && entries[0].Vehicle? then Some(entries[0].id) else None
    case None => None
  }

  /** The charge state a successful, well-formed vehicle-data reply carries, if any. */
  function ChargeStateOf(reply: HttpReply<VehicleData>): Option<ChargeState> {
    match reply
    case Response(status, Some(VehicleData(Some(DataResponse(Some(charge)))))) =>
      if Ok(status) then Some(charge) else None
    case _ => None
  }

  /** The provider's field names to the application's. */
  function ToStatus(charge: ChargeState): (status: VehicleStatus)
    ensures status.batteryLevel == charge.battery_level
    ensures status.chargingState == charge.charging_state
    ensures status.timeToFullCharge == charge.time_to_full_charge
    ensures status.chargeLimit == charge.charge_limit_soc
  {
    VehicleStatus(charge.battery_level, charge.charging_state, charge.time_to_full_charge, charge.charge_limit_soc)
  }

  /** The vehicle-data part of `getVehicleStatus`, once the first vehicle is known. */
  function FromVehicleData(reply: HttpReply<VehicleData>): Result<VehicleStatus, StatusError> {
    match reply
    case Rejected(reason) => Failure(Rethrown(NetworkError(reason)))
    case Response(status, body) =>
      if !Ok(status) then Failure(FailedToGetVehicleData)
      else if body.None? then Failure(Rethrown(InvalidJson))
      else if body.value.response.None? then Failure(Rethrown(MissingDataResponse))
      else if body.value.response.value.charge_state.None? then Failure(NoChargeState)
      else Success(ToStatus(body.value.response.value.charge_state.value))
  }

  /** `getVehicleStatus`. The checks come in the source's order: the token before any request,
      the list status (401 gets its own marker), the first vehicle, the data status (no marker
      for 401 there), the charge state; errors are rethrown as they are.

      No request is sent without a token; the "401" marker comes from a 401 on the list request
      and from nothing else; a data request is sent only when the list names a first vehicle,
      and then for that vehicle alone; a status comes back exactly when the data reply carries
      a charge state, and it is that charge state under the application's field names. */
  function GetVehicleStatus(
    accessToken: Option<string>,
    vehicles: HttpReply<VehicleList>,
    vehicleData: int -> HttpReply<VehicleData>): (out: StatusOutcome)
    ensures !HasToken(accessToken) <==> out.requests == []
    ensures !HasToken(accessToken) ==> out.result == Failure(NotAuthenticated)
    ensures HasToken(accessToken) ==> out.requests[0] == ListVehicles(accessToken.value)
    ensures out.result == Failure(TokenExpired) <==>
      HasToken(accessToken) && vehicles.Response? && vehicles.status == 401
    ensures |out.requests| == 2 <==>
      HasToken(accessToken) && vehicles.Response? && Ok(vehicles.status) && vehicles.body.Some?
      && FirstVehicle(vehicles.body.value).Some?
    ensures |out.requests| == 2 ==>
      out.requests[1] == GetVehicleData(accessToken.value, FirstVehicle(vehicles.body.value).value)
    ensures |out.requests| <= 2
    ensures out.result.Success? <==>
      |out.requests| == 2 && ChargeStateOf(vehicleData(out.requests[1].vehicleId)).Some?
    ensures out.result.Success? ==>
      out.result.value == ToStatus(ChargeStateOf(vehicleData(out.requests[1].vehicleId)).value)
  {
    if !HasToken(accessToken) then StatusOutcome(Failure(NotAuthenticated), [])
    else
      var token := accessToken.value;
      var sent := [ListVehicles(token)];
      match vehicles
      case Rejected(reason) => StatusOutcome(Failure(Rethrown(NetworkError(reason))), sent)
      case Response(status, body) =>
        if !Ok(status) then
          StatusOutcome(Failure(if status == 401 then TokenExpired else FailedToGetVehicles), sent)
        else if body.None? then StatusOutcome(Failure(Rethrown(InvalidJson)), sent)
        else
          match FirstVehicle(body.value)
          case None => StatusOutcome(Failure(NoVehiclesFound), sent)
          case Some(id) => StatusOutcome(FromVehicleData(vehicleData(id)), sent + [GetVehicleData(token, id)])
  }

  /** Only the first vehicle's data matters: two data endpoints that agree on the first
      vehicle's id give the same outcome, whatever they answer for other vehicles. */
  lemma OnlyFirstVehicle(
    accessToken: Option<string>,
    vehicles: HttpReply<VehicleList>,
    f: int -> HttpReply<VehicleData>,
    g: int -> HttpReply<VehicleData>)
    requires vehicles.Response? && vehicles.body.Some? && FirstVehicle(vehicles.body.value).Some?
    requires f(FirstVehicle(vehicles.body.value).value) == g(FirstVehicle(vehicles.body.value).value)
    ensures GetVehicleStatus(accessToken, vehicles, f) == GetVehicleStatus(accessToken, vehicles, g)
  {
  }

  /** Each failure of the list request and of the list body, with a token: a non-OK status
      gives the "401" marker on 401 and "Failed to get vehicles" otherwise, a body without a
      first vehicle gives "No vehicles found"; none of them sends the data request. */
  lemma ListFailures(token: string, vehicles: HttpReply<VehicleList>, vehicleData: int -> HttpReply<VehicleData>)
    requires token != "" && vehicles.Response?
    ensures var out := GetVehicleStatus(Some(token), vehicles, vehicleData);
      && (!Ok(vehicles.status) ==>
            out == StatusOutcome(Failure(if vehicles.status == 401 then TokenExpired else FailedToGetVehicles),
                                 [ListVehicles(token)]))
      && (Ok(vehicles.status) && vehicles.body.Some? && FirstVehicle(vehicles.body.value).None? ==>
            out == StatusOutcome(Failure(NoVehiclesFound), [ListVehicles(token)]))
  {
  }

  /** Each failure of the data request, once a first vehicle is known: a non-OK status gives
      "Failed to get vehicle data" (401 included), and a body whose `charge_state` is missing
      or null gives "No charge state data available". */
  lemma DataFailures(
    token: string,
    vehicles: HttpReply<VehicleList>,
    vehicleData: int -> HttpReply<VehicleData>,
    id: int)
    requires token != "" && vehicles.Response? && Ok(vehicles.status) && vehicles.body.Some?
    requires FirstVehicle(vehicles.body.value) == Some(id)
    ensures var out := GetVehicleStatus(Some(token), vehicles, vehicleData);
      && out.requests == [ListVehicles(token), GetVehicleData(token, id)]
      && (vehicleData(id).Response? && !Ok(vehicleData(id).status) ==> out.result == Failure(FailedToGetVehicleData))
      && ((vehicleData(id).Response? && Ok(vehicleData(id).status) && vehicleData(id).body.Some?
           && vehicleData(id).body.value.response.Some?
           && vehicleData(id).body.value.response.value.charge_state.None?)
          ==> out.result == Failure(NoChargeState))
  {
  }

  /** What the code only rethrows comes out unchanged: a rejected list request, an OK list body
      that is not JSON, and, once a first vehicle is known, a rejected data request, an OK data
      body that is not JSON and a data body without `response`. */
  lemma ErrorsRethrown(token: string, vehicles: HttpReply<VehicleList>, vehicleData: int -> HttpReply<VehicleData>)
    requires token != ""
    ensures var out := GetVehicleStatus(Some(token), vehicles, vehicleData);
      && (vehicles.Rejected? ==>
            out == StatusOutcome(Failure(Rethrown(NetworkError(vehicles.reason))), [ListVehicles(token)]))
      && (vehicles.Response? && Ok(vehicles.status) && vehicles.body.None? ==>
            out == StatusOutcome(Failure(Rethrown(InvalidJson)), [ListVehicles(token)]))
    ensures vehicles.Response? && Ok(vehicles.status) && vehicles.body.Some?
            && FirstVehicle(vehicles.body.value).Some? ==>
      var data := vehicleData(FirstVehicle(vehicles.body.value).value);
      var out := GetVehicleStatus(Some(token), vehicles, vehicleData);
      && (data.Rejected? ==> out.result == Failure(Rethrown(NetworkError(data.reason))))
      && (data.Response? && Ok(data.status) && data.body.None? ==> out.result == Failure(Rethrown(InvalidJson)))
      && (data.Response? && Ok(data.status) && data.body.Some? && data.body.value.response.None? ==>
            out.result == Failure(Rethrown(MissingDataResponse)))
  {
  }

  // ---------------------------------------------------------------------------------------
  // exchangeCodeForTokens

  /** The `localStorage` key of the PKCE verifier. */
  const CODE_VERIFIER_KEY := "code_verifier"

  const GRANT_TYPE := "authorization_code"
  const CLIENT_ID := "ownerapi"
  const REDIRECT_URI := "https://auth.tesla.com/void/callback"

  /** The JSON body of the token request. */
  datatype TokenRequest = TokenRequest(
    grantType: string,
    clientId: string,
    code: string,
    codeVerifier: string,
    redirectUri: string)

  /** The token response body the caller reads. */
  datatype Tokens = Tokens(accessToken: string, refreshToken: string, expiresIn: int)

  datatype AuthError =
    | CodeVerifierNotFound
    | AuthenticationFailed
    /** The rejection of `response.json()` on a 2xx body that is not JSON. */
    | TokenBodyNotJson
  {
    function Message(): string
      requires !TokenBodyNotJson?
    {
      match this
      case CodeVerifierNotFound => "Code verifier not found"
      case AuthenticationFailed => "Failed to authenticate with Tesla"
    }
  }

  /** The browser's `localStorage`: a string-to-string table. */
  class BrowserStorage {
    var items: map<string, string>

    constructor(items: map<string, string>)
      ensures this.items == items
    {
      this.items := items;
    }

    /** `getItem`: the value, or null (`None`) for an absent key. */
    method GetItem(key: string) returns (value: Option<string>)
      ensures value == if key in items then Some(items[key]) else None
    {
      value := if key in items then Some(items[key]) else None;
    }

    /** `removeItem`: the key is gone, nothing else changes, an absent key is no error. */
    method RemoveItem(key: string)
      modifies this
      ensures items == old(items) - {key}
    {
      items := items - {key};
    }
  }

  /** The verifier `exchangeCodeForTokens` accepts: stored and not the empty string. */
  function StoredVerifier(items: map<string, string>): Option<string> {
    if CODE_VERIFIER_KEY in items && items[CODE_VERIFIER_KEY] != "" then Some(items[CODE_VERIFIER_KEY]) else None
  }

  /** The `try`/`catch` around the token request, as written. A rejected request and a non-OK
      status both become "Failed to authenticate with Tesla". `return response.json()` is not
      awaited inside the `try`, so the rejection of a 2xx body that is not JSON escapes the
      `catch` (see `ExchangeJsonEscapes`). */
  function ExchangeReply(reply: HttpReply<Tokens>): Result<Tokens, AuthError> {
    match reply
    case Rejected(_) => Failure(AuthenticationFailed)
    case Response(status, body) =>
      if !Ok(status) then Failure(AuthenticationFailed)
      else if body.None? then Failure(TokenBodyNotJson)
      else Success(body.value)
  }

  /** The same with `return await response.json()`: every failure is collapsed. */
  function ExchangeReplyAwaited(reply: HttpReply<Tokens>): (r: Result<Tokens, AuthError>)
    ensures r.Success? || r.error == AuthenticationFailed
    ensures r.Success? <==> reply.Response? && Ok(reply.status) && reply.body.Some?
    ensures r.Success? ==> r.value == reply.body.value
    ensures ExchangeReply(reply).Success? ==> r == ExchangeReply(reply)
  {
    match reply
    case Rejected(_) => Failure(AuthenticationFailed)
    case Response(status, body) =>
      if Ok(status) && body.Some? then Success(body.value) else Failure(AuthenticationFailed)
  }

  /** As written, the tokens come back exactly on a 2xx reply with a JSON body; a rejected
      request and every non-OK status give the generic error, and the verifier error never
      comes from the reply. */
  lemma ExchangeCollapses(reply: HttpReply<Tokens>)
    ensures ExchangeReply(reply).Success? <==> reply.Response? && Ok(reply.status) && reply.body.Some?
    ensures reply.Rejected? || !Ok(reply.status) ==> ExchangeReply(reply) == Failure(AuthenticationFailed)
    ensures ExchangeReply(reply) != Failure(CodeVerifierNotFound)
  {
  }

  /** A 2xx reply whose body is not JSON is not collapsed into the generic error. */
  lemma ExchangeJsonEscapes(status: int)
    requires Ok(status)
    ensures ExchangeReply(Response(status, None)) == Failure(TokenBodyNotJson)
    ensures ExchangeReplyAwaited(Response(status, None)) == Failure(AuthenticationFailed)
  {
  }

  /** `exchangeCodeForTokens`. With no verifier stored (or an empty one) it fails with
      "Code verifier not found", sends nothing and leaves the storage as it was: that check
      comes before the `try`, so the `finally` does not run. Otherwise it sends the fixed
      grant type, client id and redirect URI with the code and the stored verifier, the result
      is what the `try`/`catch` makes of the reply, and the verifier is removed whatever the
      outcome. */
  method ExchangeCodeForTokens(storage: BrowserStorage, code: string, provider: TokenRequest -> HttpReply<Tokens>)
    returns (result: Result<Tokens, AuthError>, sent: Option<TokenRequest>)
    modifies storage
    ensures sent.None? <==> StoredVerifier(old(storage.items)).None?
    ensures sent.None? ==> result == Failure(CodeVerifierNotFound) && storage.items == old(storage.items)
    ensures sent.Some? ==>
      && sent.value == TokenRequest(GRANT_TYPE, CLIENT_ID, code, StoredVerifier(old(storage.items)).value, REDIRECT_URI)
      && result == ExchangeReply(provider(sent.value))
      && storage.items == old(storage.items) - {CODE_VERIFIER_KEY}
    ensures sent.Some? && result != ExchangeReplyAwaited(provider(sent.value)) ==> result == Failure(TokenBodyNotJson)
    ensures result.Failure? && result.error == CodeVerifierNotFound <==> sent.None?
  {
    var codeVerifier := storage.GetItem(CODE_VERIFIER_KEY);
    if codeVerifier.None? || codeVerifier.value == "" {
      return Failure(CodeVerifierNotFound), None;
    }
    var request := TokenRequest(GRANT_TYPE, CLIENT_ID, code, codeVerifier.value, REDIRECT_URI);
    sent := Some(request);
    result := ExchangeReply(provider(request));
    storage.RemoveItem(CODE_VERIFIER_KEY);
  }
}
