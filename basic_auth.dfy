/** Client authentication at the token endpoint: HTTP Basic credentials in
    the Authorization header (section 2.3.1 of RFC 6749, scheme of RFC 7617),
    and the empty-to-absent normalisation applied to every optional value. */
module BasicAuth {
  import opened Wrappers
  import opened GoStrings
  import Base64

  /** The scheme name, compared byte for byte (case-sensitively). */
  const BASIC: Bytes := Ascii("Basic")

  /** The client credentials handed to the authorization backend. */
  datatype Client = Client(id: Option<Bytes>, secret: Option<Bytes>)

  /** Why the Authorization header was refused. */
  datatype AuthError =
    | SchemeInvalid    // no space, or the scheme before it is not "Basic"
    | EncodingInvalid  // the parameter is not valid standard base64
    | FormatInvalid    // the decoded payload holds no colon

  /** `checkEmpty`: the empty string becomes absent, every other string is
      kept as it is. Reading the result back with "" as the fallback gives
      the original string, and no result is ever a present empty string. */
  function CheckEmpty(value: Bytes): (r: Option<Bytes>)
    ensures r == None <==> value == []
    ensures r.GetOr([]) == value
    ensures r != Some([])
  {
    if value == [] then None else Some(value)
  }

  /** The values `CheckEmpty` can produce: every option except a present
      empty string, each obtained from exactly one string. */
  lemma CheckEmptyOnto(o: Option<Bytes>)
    requires o != Some([])
    ensures CheckEmpty(o.GetOr([])) == o
  {
  }

  /** `readBasicAuth` applied to the value of the Authorization header (the
      empty string when the header is missing). */
  function ReadBasicAuth(authorization: Bytes): (r: Result<Client, AuthError>)
    ensures r.Ok? ==> r.value.id != Some([]) && r.value.secret != Some([])
  {
    var authParts := SplitN2(authorization, SPACE);
    if |authParts| != 2 || authParts[0] != BASIC then Err(SchemeInvalid)
    else
      match Base64.DecodeString(authParts[1])
      case None => Err(EncodingInvalid)
      case Some(decoded) =>
        var credentialParts := SplitN2(decoded, COLON);
        if |credentialParts| != 2 then Err(FormatInvalid)
        else Ok(Client(CheckEmpty(credentialParts[0]), CheckEmpty(credentialParts[1])))
  }

  /** The header starts with the scheme "Basic" followed by a space. */
  predicate HasBasicScheme(authorization: Bytes) {
    |authorization| > |BASIC| && authorization[..|BASIC| + 1] == BASIC + [SPACE]
  }

  /** The base64 parameter of a header that has the Basic scheme. */
  function Parameter(authorization: Bytes): (p: Bytes)
    requires HasBasicScheme(authorization)
    ensures authorization == BASIC + [SPACE] + p
  {
    authorization[|BASIC| + 1..]
  }

  /** How the first space splits a header that starts with "Basic ". */
  lemma {:induction false} SplitBasic(p: Bytes)
    ensures SplitN2(BASIC + [SPACE] + p, SPACE) == [BASIC, p]
  {
    assert SPACE !in BASIC;
    SplitN2AtFirst(BASIC, SPACE, p);
  }

  /** The scheme check fails exactly when the header does not start with
      "Basic " (a missing or empty header, one without a space, another or
      differently cased scheme). */
  lemma {:induction false} SchemeRejected(authorization: Bytes)
    ensures ReadBasicAuth(authorization) == Err(SchemeInvalid) <==> !HasBasicScheme(authorization)
  {
    var parts := SplitN2(authorization, SPACE);
    if HasBasicScheme(authorization) {
      SplitBasic(Parameter(authorization));
    }
  }

  /** With the Basic scheme, the base64 check fails exactly when the
      parameter does not decode. */
  lemma {:induction false} EncodingRejected(p: Bytes)
    ensures ReadBasicAuth(BASIC + [SPACE] + p) == Err(EncodingInvalid) <==> Base64.DecodeString(p) == None
  {
    SplitBasic(p);
  }

  /** A payload that decodes is refused exactly when it holds no colon. */
  lemma FormatRejected(p: Bytes, decoded: Bytes)
    requires Base64.DecodeString(p) == Some(decoded)
    ensures ReadBasicAuth(BASIC + [SPACE] + p) == Err(FormatInvalid) <==> COLON !in decoded
  {
    SplitBasic(p);
  }

  /** The id is the payload up to the first colon and the secret all that
      follows it, colons included; both are normalised by `CheckEmpty`. */
  lemma {:induction false} CredentialsSplit(p: Bytes, id: Bytes, secret: Bytes)
    requires Base64.DecodeString(p) == Some(id + [COLON] + secret)
    requires COLON !in id
    ensures ReadBasicAuth(BASIC + [SPACE] + p) == Ok(Client(CheckEmpty(id), CheckEmpty(secret)))
  {
    SplitBasic(p);
    SplitN2AtFirst(id, COLON, secret);
  }

  /** The three failure cases together: the header is refused exactly when
      it lacks the Basic scheme, its parameter does not decode, or the
      decoded payload has no colon. */
  lemma {:induction false} Rejected(authorization: Bytes)
    ensures ReadBasicAuth(authorization).Err? <==>
      || !HasBasicScheme(authorization)
      || Base64.DecodeString(Parameter(authorization)).None?
      || COLON !in Base64.DecodeString(Parameter(authorization)).value
  {
    SchemeRejected(authorization);
    if HasBasicScheme(authorization) {
      SplitBasic(Parameter(authorization));
    }
  }

  /** The header a client sends for an id and a secret (section 2 of
      RFC 7617): the scheme, a space and the base64 of "id:secret". */
  function BasicHeader(id: Bytes, secret: Bytes): Bytes {
    BASIC + [SPACE] + Base64.EncodeToString(id + [COLON] + secret)
  }

  /** Round trip: for an id without a colon, the header a client builds is
      read back as the same id and secret, normalised. */
  lemma {:induction false} ReadBasicHeader(id: Bytes, secret: Bytes)
    requires COLON !in id
    ensures ReadBasicAuth(BasicHeader(id, secret)) == Ok(Client(CheckEmpty(id), CheckEmpty(secret)))
  {
    Base64.DecodeEncode(id + [COLON] + secret);
    CredentialsSplit(Base64.EncodeToString(id + [COLON] + secret), id, secret);
  }

  /** Every accepted header reads the same as the header a client would
      build from the credentials read, absent values sent as "". */
  lemma {:induction false} AcceptedIsCanonical(authorization: Bytes)
    requires ReadBasicAuth(authorization).Ok?
    ensures var c := ReadBasicAuth(authorization).value;
      ReadBasicAuth(BasicHeader(c.id.GetOr([]), c.secret.GetOr([]))) == ReadBasicAuth(authorization)
  {
    var c := ReadBasicAuth(authorization).value;
    SchemeRejected(authorization);
    var p := Parameter(authorization);
    SplitBasic(p);
    var decoded := Base64.DecodeString(p).value;
    var parts := SplitN2(decoded, COLON);
    assert c == Client(CheckEmpty(parts[0]), CheckEmpty(parts[1]));
    ReadBasicHeader(parts[0], parts[1]);
  }

  /** A client that sends an encoded payload without a colon, such as
      "onlyid" (an id and no secret), is refused. */
  lemma {:induction false} NoColonRejected(payload: Bytes)
    requires COLON !in payload
    ensures ReadBasicAuth(BASIC + [SPACE] + Base64.EncodeToString(payload)) == Err(FormatInvalid)
  {
    Base64.DecodeEncode(payload);
    FormatRejected(Base64.EncodeToString(payload), payload);
  }

  lemma OnlyIdRejected()
    ensures ReadBasicAuth(BASIC + [SPACE] + Base64.EncodeToString(Ascii("onlyid"))) == Err(FormatInvalid)
  {
    NoColonRejected(Ascii("onlyid"));
  }
}
