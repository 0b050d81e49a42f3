/** The `POST /token` handler: it reads the four form values, authenticates
    the client with Basic credentials, forwards a normalised access-token
    request to the authorization backend, and turns the backend's answer
    into the HTTP response. The handler is given twice: `HandleToken`, a
    function from the request and the backend's behaviour to the response
    and the backend calls made, and `ServeToken`, the step-by-step handler
    acting on a request context and a backend client, proved to do what
    `HandleToken` says. */
module TokenEndpoint {
  import opened Wrappers
  import opened GoStrings
  import opened BasicAuth

  /** The parsed form body of the request: every value given for a key, in
      order (Go's `url.Values`). */
  type Form = map<Bytes, seq<Bytes>>

  /** The form parameter names of section 4.3.2 and section 6 of RFC 6749. */
  const GRANT_TYPE: Bytes := Ascii("grant_type")
  const USERNAME: Bytes := Ascii("username")
  const PASSWORD: Bytes := Ascii("password")
  const REFRESH_TOKEN: Bytes := Ascii("refresh_token")

  const WWW_AUTHENTICATE: Bytes := Ascii("WWW-Authenticate")
  const BASIC_CHALLENGE: Bytes := Ascii("Basic realm=\"oauth2\"")

  const STATUS_OK := 200
  const STATUS_UNAUTHORIZED := 401
  const STATUS_INTERNAL_SERVER_ERROR := 500

  /** `PostFormValue`: the first value given for `key`, or "" when the key is
      missing or has no value. */
  function PostFormValue(form: Form, key: Bytes): Bytes {
    if key in form && form[key] != [] then form[key][0] else []
  }

  /** `proto_oauth2.AccessTokenRequest`. */
  datatype TokenRequest = TokenRequest(
    grantType: Option<Bytes>,
    username: Option<Bytes>,
    password: Option<Bytes>,
    refreshToken: Option<Bytes>)

  /** No field of the request is a present empty string. */
  predicate Normalised(request: TokenRequest) {
    && request.grantType != Some([])
    && request.username != Some([])
    && request.password != Some([])
    && request.refreshToken != Some([])
  }

  /** The arguments of one `GetAccessToken` call to the backend. The
      credentials are plain strings: the handler passes `client.GetId()` and
      `client.GetSecret()`, protobuf getters that read an absent value as "". */
  datatype BackendCall = BackendCall(clientId: Bytes, clientSecret: Bytes, request: TokenRequest)

  /** The OAuth2 error object the backend declares (section 5.2 of RFC 6749). */
  datatype OAuthError = OAuthError(code: Bytes, description: Option<Bytes>)

  /** What one `GetAccessToken` call comes back with: a transport error
      (the Go call's non-nil `err`), or a response that is either a success
      carrying the token or a failure carrying the error object. */
  datatype BackendOutcome<Tok> = TransportFault | Granted(token: Tok) | Refused(error: OAuthError)

  /** What is serialised as the response body. */
  datatype Body<Tok> = NoBody | TokenJson(token: Tok) | ErrorJson(error: OAuthError)

  datatype Response<Tok> = Response(status: int, headers: map<Bytes, Bytes>, body: Body<Tok>)

  /** The response and, in order, every backend call made to produce it. */
  datatype Exchange<Tok> = Exchange(response: Response<Tok>, calls: seq<BackendCall>)

  /** The response to a request whose credentials are refused. */
  function Challenge<Tok>(): Response<Tok> {
    Response(STATUS_UNAUTHORIZED, map[WWW_AUTHENTICATE := BASIC_CHALLENGE], NoBody)
  }

  /** The status a fresh response ends up with when the framework is asked
      to write `code`: only a non-negative code is written, otherwise the
      default 200 stays. */
  function WrittenStatus(code: int): int {
    if code >= 0 then code else STATUS_OK
  }

  /** The access-token request built from the form: each of the four values
      collapsed from "" to absent. */
  function RequestOf(form: Form): (request: TokenRequest)
    ensures Normalised(request)
    ensures request.grantType.GetOr([]) == PostFormValue(form, GRANT_TYPE)
    ensures request.username.GetOr([]) == PostFormValue(form, USERNAME)
    ensures request.password.GetOr([]) == PostFormValue(form, PASSWORD)
    ensures request.refreshToken.GetOr([]) == PostFormValue(form, REFRESH_TOKEN)
  {
    TokenRequest(
      CheckEmpty(PostFormValue(form, GRANT_TYPE)),
      CheckEmpty(PostFormValue(form, USERNAME)),
      CheckEmpty(PostFormValue(form, PASSWORD)),
      CheckEmpty(PostFormValue(form, REFRESH_TOKEN)))
  }

  /** The handler, given the form, the Authorization header ("" when
      missing), the backend's answer to each possible call, and
      `ErrorHttpResponseCode`, the status for an OAuth2 error code. The
      backend is called only when the credentials are accepted, at most
      once, always with a normalised request, and the body is exactly what
      the backend answered. */
  function HandleToken<Tok>(
    form: Form, authorization: Bytes,
    backend: BackendCall -> BackendOutcome<Tok>, errorStatus: Bytes -> int): (x: Exchange<Tok>)
    ensures x.calls == [] <==> ReadBasicAuth(authorization).Err?
    ensures |x.calls| <= 1
    ensures x.calls == [] ==> x.response == Challenge()
    ensures forall call | call in x.calls :: Normalised(call.request)
    ensures x.calls != [] ==>
      && ReadBasicAuth(authorization).Ok?
      && CheckEmpty(x.calls[0].clientId) == ReadBasicAuth(authorization).value.id
      && CheckEmpty(x.calls[0].clientSecret) == ReadBasicAuth(authorization).value.secret
    ensures x.response.body.TokenJson? ==>
      x.calls != [] && backend(x.calls[0]) == Granted(x.response.body.token)
    ensures x.response.body.ErrorJson? ==>
      x.calls != [] && backend(x.calls[0]) == Refused(x.response.body.error)
  {
    match ReadBasicAuth(authorization)
    case Err(_) => Exchange(Challenge(), [])
    case Ok(client) =>
      var call := BackendCall(client.id.GetOr([]), client.secret.GetOr([]), RequestOf(form));
      var response := match backend(call)
        case TransportFault => Response(STATUS_INTERNAL_SERVER_ERROR, map[], NoBody)
        case Granted(token) => Response(STATUS_OK, map[], TokenJson(token))
        case Refused(error) => Response(WrittenStatus(errorStatus(error.code)), map[], ErrorJson(error));
      Exchange(response, [call])
  }

  /** Refused credentials get the Basic challenge and no backend call, in
      exactly the three cases where the header is malformed. */
  lemma ChallengeWhenMalformed<Tok>(
    form: Form, authorization: Bytes,
    backend: BackendCall -> BackendOutcome<Tok>, errorStatus: Bytes -> int)
    ensures var x := HandleToken(form, authorization, backend, errorStatus);
      (x.response == Challenge() && x.calls == []) <==>
        || !HasBasicScheme(authorization)
        || Base64.DecodeString(Parameter(authorization)).None?
        || COLON !in Base64.DecodeString(Parameter(authorization)).value
  {
    Rejected(authorization);
  }

  /** The backend call made for a request whose credentials are accepted. */
  function Forwarded(form: Form, authorization: Bytes): BackendCall
    requires ReadBasicAuth(authorization).Ok?
  {
    var client := ReadBasicAuth(authorization).value;
    BackendCall(client.id.GetOr([]), client.secret.GetOr([]), RequestOf(form))
  }

  /** Accepted credentials lead to exactly one backend call. It carries the
      credentials read, absent ones sent as "", and the request built from
      the form; collapsing "" back to absent recovers the credentials read. */
  lemma ForwardsRequest<Tok>(
    form: Form, authorization: Bytes,
    backend: BackendCall -> BackendOutcome<Tok>, errorStatus: Bytes -> int)
    requires ReadBasicAuth(authorization).Ok?
    ensures var client := ReadBasicAuth(authorization).value;
      && HandleToken(form, authorization, backend, errorStatus).calls == [Forwarded(form, authorization)]
      && Forwarded(form, authorization).clientId == client.id.GetOr([])
      && Forwarded(form, authorization).clientSecret == client.secret.GetOr([])
      && Forwarded(form, authorization).request == RequestOf(form)
      && CheckEmpty(Forwarded(form, authorization).clientId) == client.id
      && CheckEmpty(Forwarded(form, authorization).clientSecret) == client.secret
  {
    var client := ReadBasicAuth(authorization).value;
    CheckEmptyOnto(client.id);
    CheckEmptyOnto(client.secret);
  }

  /** A transport fault is a 500 with no body and no header. */
  lemma TransportFaultIs500<Tok>(
    form: Form, authorization: Bytes,
    backend: BackendCall -> BackendOutcome<Tok>, errorStatus: Bytes -> int)
    requires ReadBasicAuth(authorization).Ok?
    requires backend(Forwarded(form, authorization)).TransportFault?
    ensures HandleToken(form, authorization, backend, errorStatus).response
      == Response(STATUS_INTERNAL_SERVER_ERROR, map[], NoBody)
  {
  }

  /** A granted token is the 200 body, exactly as the backend returned it. */
  lemma GrantedIs200<Tok>(
    form: Form, authorization: Bytes,
    backend: BackendCall -> BackendOutcome<Tok>, errorStatus: Bytes -> int, token: Tok)
    requires ReadBasicAuth(authorization).Ok?
    requires backend(Forwarded(form, authorization)) == Granted(token)
    ensures HandleToken(form, authorization, backend, errorStatus).response
      == Response(STATUS_OK, map[], TokenJson(token))
  {
  }

  /** A refusal gets the status `ErrorHttpResponseCode` gives its code (when
      that is non-negative), with the error object as the body, unchanged. */
  lemma RefusedIsErrorStatus<Tok>(
    form: Form, authorization: Bytes,
    backend: BackendCall -> BackendOutcome<Tok>, errorStatus: Bytes -> int, error: OAuthError)
    requires ReadBasicAuth(authorization).Ok?
    requires backend(Forwarded(form, authorization)) == Refused(error)
    ensures var response := HandleToken(form, authorization, backend, errorStatus).response;
      && response.body == ErrorJson(error)
      && response.headers == map[]
      && (errorStatus(error.code) >= 0 ==> response.status == errorStatus(error.code))
      && (errorStatus(error.code) < 0 ==> response.status == STATUS_OK)
  {
  }

  /** An empty form value and a missing one lead to the same handling. */
  lemma EmptyIsAbsent<Tok>(
    form: Form, key: Bytes, authorization: Bytes,
    backend: BackendCall -> BackendOutcome<Tok>, errorStatus: Bytes -> int)
    ensures HandleToken(form[key := [[]]], authorization, backend, errorStatus)
         == HandleToken(form - {key}, authorization, backend, errorStatus)
  {
  }

  /** End to end: a client that sends the Basic header for its id (without
      a colon) and secret has the backend called once with exactly that id
      and secret and the request built from the form, and a token the
      backend grants is the 200 body. */
  lemma {:induction false} GrantedForBasicClient<Tok>(
    form: Form, id: Bytes, secret: Bytes,
    backend: BackendCall -> BackendOutcome<Tok>, errorStatus: Bytes -> int, token: Tok)
    requires COLON !in id
    requires backend(BackendCall(id, secret, RequestOf(form))) == Granted(token)
    ensures HandleToken(form, BasicHeader(id, secret), backend, errorStatus)
      == Exchange(Response(STATUS_OK, map[], TokenJson(token)), [BackendCall(id, secret, RequestOf(form))])
  {
    ReadBasicHeader(id, secret);
  }

  /** End to end, as above, for an OAuth2 error such as "invalid_grant": the
      status is the one `ErrorHttpResponseCode` gives the code (as the
      framework writes it) and the body is the backend's error object. */
  lemma {:induction false} RefusedForBasicClient<Tok>(
    form: Form, id: Bytes, secret: Bytes,
    backend: BackendCall -> BackendOutcome<Tok>, errorStatus: Bytes -> int, error: OAuthError)
    requires COLON !in id
    requires backend(BackendCall(id, secret, RequestOf(form))) == Refused(error)
    ensures HandleToken(form, BasicHeader(id, secret), backend, errorStatus)
      == Exchange(Response(WrittenStatus(errorStatus(error.code)), map[], ErrorJson(error)),
           [BackendCall(id, secret, RequestOf(form))])
  {
    ReadBasicHeader(id, secret);
  }

  /** A password-grant form (grant_type=password&username=u&password=p)
      becomes a request with the refresh token absent. */
  lemma PasswordGrantRequest(form: Form)
    requires form == map[GRANT_TYPE := [Ascii("password")], USERNAME := [Ascii("u")], PASSWORD := [Ascii("p")]]
    ensures RequestOf(form) == TokenRequest(Some(Ascii("password")), Some(Ascii("u")), Some(Ascii("p")), None)
  {
    assert |GRANT_TYPE| == 10 && |USERNAME| == 8 && |PASSWORD| == 8 && |REFRESH_TOKEN| == 13;
    assert USERNAME[0] != PASSWORD[0];
    assert PostFormValue(form, GRANT_TYPE) == Ascii("password");
    assert PostFormValue(form, USERNAME) == Ascii("u");
    assert PostFormValue(form, PASSWORD) == Ascii("p");
    assert PostFormValue(form, REFRESH_TOKEN) == [];
  }

  /** Client "clientA" with secret "secretA" asks for a password grant: the
      token the backend grants is the 200 body. */
  lemma ClientAPasswordGrant<Tok>(
    form: Form, backend: BackendCall -> BackendOutcome<Tok>, errorStatus: Bytes -> int, token: Tok)
    requires form == map[GRANT_TYPE := [Ascii("password")], USERNAME := [Ascii("u")], PASSWORD := [Ascii("p")]]
    requires backend(BackendCall(Ascii("clientA"), Ascii("secretA"),
      TokenRequest(Some(Ascii("password")), Some(Ascii("u")), Some(Ascii("p")), None))) == Granted(token)
    ensures HandleToken(form, BasicHeader(Ascii("clientA"), Ascii("secretA")), backend, errorStatus).response
      == Response(STATUS_OK, map[], TokenJson(token))
  {
    var id, secret := Ascii("clientA"), Ascii("secretA");
    assert COLON !in id;
    PasswordGrantRequest(form);
    GrantedForBasicClient(form, id, secret, backend, errorStatus, token);
  }

  /** A Basic header whose payload is "onlyid" (no colon, so no secret)
      gets the challenge, and no backend call. */
  lemma OnlyIdChallenged<Tok>(
    form: Form, backend: BackendCall -> BackendOutcome<Tok>, errorStatus: Bytes -> int)
    ensures HandleToken(form, BASIC + [SPACE] + Base64.EncodeToString(Ascii("onlyid")), backend, errorStatus)
      == Exchange(Challenge(), [])
  {
    OnlyIdRejected();
  }

  /** The framework's request context, reduced to what the handler touches:
      the response status, the response headers, the body written and
      whether the handler chain was aborted. */
  class Context<Tok> {
    var status: int
    var headers: map<Bytes, Bytes>
    var body: Body<Tok>
    var aborted: bool

    /** The context of a request nobody has answered yet. */
    predicate Unanswered()
      reads this
    {
      status == STATUS_OK && headers == map[] && body == NoBody && !aborted
    }

    function Written(): Response<Tok>
      reads this
    {
      Response(status, headers, body)
    }

    constructor ()
      ensures Unanswered()
    {
      status, headers, body, aborted := STATUS_OK, map[], NoBody, false;
    }

    /** `c.Writer.Header().Set(key, value)`. */
    method SetHeader(key: Bytes, value: Bytes)
      modifies this
      ensures headers == old(headers)[key := value]
      ensures status == old(status) && body == old(body) && aborted == old(aborted)
    {
      headers := headers[key := value];
    }

    /** `c.Abort(code)`: writes the status and stops the handler chain. */
    method Abort(code: int)
      modifies this
      ensures status == (if code >= 0 then code else old(status)) && aborted
      ensures headers == old(headers) && body == old(body)
    {
      if code >= 0 {
        status := code;
      }
      aborted := true;
    }

    /** `c.JSON(code, obj)`: writes the status, when it is non-negative,
      and the serialised body. */
    method Json(code: int, obj: Body<Tok>)
      modifies this
      ensures status == (if code >= 0 then code else old(status)) && body == obj
      ensures headers == old(headers) && aborted == old(aborted)
    {
      if code >= 0 {
        status := code;
      }
      body := obj;
    }
  }

  /** The client of the authorization backend. `answer` is what the backend
      replies to each call; `calls` records every call made. */
  class AuthService<Tok> {
    const answer: BackendCall -> BackendOutcome<Tok>
    var calls: seq<BackendCall>

    constructor (answer: BackendCall -> BackendOutcome<Tok>)
      ensures this.answer == answer && calls == []
    {
      this.answer := answer;
      calls := [];
    }

    /** `GetAccessToken(id, secret, request)`. */
    method GetAccessToken(clientId: Bytes, clientSecret: Bytes, request: TokenRequest)
      returns (outcome: BackendOutcome<Tok>)
      modifies this
      ensures calls == old(calls) + [BackendCall(clientId, clientSecret, request)]
      ensures outcome == answer(BackendCall(clientId, clientSecret, request))
    {
      calls := calls + [BackendCall(clientId, clientSecret, request)];
      outcome := answer(BackendCall(clientId, clientSecret, request));
    }
  }

  /** The handler closure registered for `POST /token`, acting on the
      request context and the backend client: it writes the response
      `HandleToken` describes, makes exactly the backend calls it lists, and
      aborts the chain exactly when it writes no body. */
  method ServeToken<Tok>(
    c: Context<Tok>, service: AuthService<Tok>,
    form: Form, authorization: Bytes, errorStatus: Bytes -> int)
    requires c.Unanswered()
    modifies c, service
    ensures var x := HandleToken(form, authorization, service.answer, errorStatus);
      && c.Written() == x.response
      && service.calls == old(service.calls) + x.calls
      && c.aborted == x.response.body.NoBody?
  {
    var paramGrantType := PostFormValue(form, GRANT_TYPE);
    var paramUsername := PostFormValue(form, USERNAME);
    var paramPassword := PostFormValue(form, PASSWORD);
    var paramRefreshToken := PostFormValue(form, REFRESH_TOKEN);

    var client := ReadBasicAuth(authorization);
    if client.Err? {
      c.SetHeader(WWW_AUTHENTICATE, BASIC_CHALLENGE);
      c.Abort(STATUS_UNAUTHORIZED);
      return;
    }

    var request := TokenRequest(
      CheckEmpty(paramGrantType),
      CheckEmpty(paramUsername),
      CheckEmpty(paramPassword),
      CheckEmpty(paramRefreshToken));

    // client.GetId() and client.GetSecret() read an absent value as "".
    var response := service.GetAccessToken(client.value.id.GetOr([]), client.value.secret.GetOr([]), request);
    if response.TransportFault? {
      c.Abort(STATUS_INTERNAL_SERVER_ERROR);
      return;
    }

    if response.Granted? {
      c.Json(STATUS_OK, TokenJson(response.token));
    } else {
      var oauthErr := response.error;
      var httpCode := errorStatus(oauthErr.code);
      c.Json(httpCode, ErrorJson(oauthErr));
    }
  }
}
