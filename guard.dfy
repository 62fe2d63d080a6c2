/**
 * AuthGuard: the bearer token is the second space-separated field of the
 * `Authorization` header when the first field is exactly "Bearer". A
 * missing or empty token is refused before verification; a token the
 * verifier rejects is refused after it; otherwise the verified payload is
 * attached to the request as its user. The JWT verifier (with its secret)
 * is a parameter.
 */
module Guard {
  import opened Wrappers
  import opened Errors
  import opened Text
  import Auth

  const Scheme: string := "Bearer"

  /** `extractTokenFromHeader`: `[type, token] = header?.split(' ') ?? []`, then `type === 'Bearer' ? token : undefined`. */
  function ExtractToken(authorization: Option<string>): (r: Option<string>)
    ensures authorization.None? ==> r.None?
    ensures r.Some? ==>
              var h := authorization.value;
              && |h| >= 7 && h[..7] == Scheme + " "
              && r.value <= h[7..] && ' ' !in r.value
              && (|h| == 7 + |r.value| || h[7 + |r.value|] == ' ')
  {
    match authorization
    case None => None
    case Some(h) =>
      var campos := Split(h, ' ');
      if campos[0] == Scheme && |campos| > 1 then
        FirstFieldsOf(h);
        assert h[..7] == h[..6] + [h[6]];
        Some(campos[1])
      else None
  }

  /** Where the first two fields of a header sit inside it. */
  lemma FirstFieldsOf(h: string)
    requires |Split(h, ' ')| > 1
    ensures var campos := Split(h, ' ');
      var n := |campos[0]|;
      && n < |h| && h[..n] == campos[0] && h[n] == ' '
      && campos[1] <= h[n + 1..] && ' ' !in campos[1]
      && (|h| == n + 1 + |campos[1]| || h[n + 1 + |campos[1]|] == ' ')
  {
    var campos := Split(h, ' ');
    var n := |campos[0]|;
    SplitFirstField(h, ' ');
    var b := h[n + 1..];
    assert h == campos[0] + [' '] + b;
    SplitAtFirst(campos[0], ' ', b);
    assert campos[1] == Split(b, ' ')[0];
    SplitFirstField(b, ' ');
    if |Split(b, ' ')| == 1 {
      SplitWithoutSeparator(b, ' ');
    }
  }

  /** "Bearer <t>" (optionally followed by more fields) yields `t` when `t` has no space. */
  lemma ExtractTokenBearer(t: string, rest: string)
    requires ' ' !in t
    ensures ExtractToken(Some(Scheme + " " + t)) == Some(t)
    ensures ExtractToken(Some(Scheme + " " + t + " " + rest)) == Some(t)
  {
    assert Scheme + " " + t == Scheme + [' '] + t;
    SplitAtFirst(Scheme, ' ', t);
    SplitWithoutSeparator(t, ' ');
    assert Scheme + " " + t + " " + rest == Scheme + [' '] + (t + [' '] + rest);
    SplitAtFirst(Scheme, ' ', t + [' '] + rest);
    SplitAtFirst(t, ' ', rest);
  }

  /** A header that does not begin with "Bearer " yields no token. */
  lemma ExtractTokenSinBearer(h: string)
    requires !(|h| >= 7 && h[..7] == Scheme + " ")
    ensures ExtractToken(Some(h)) == None
  {
  }

  /** The decision `canActivate` takes: the payload, or why the request is refused. */
  function Autorizar(authorization: Option<string>, verify: string -> Option<Auth.Payload>): (r: Result<Auth.Payload>)
    ensures ExtractToken(authorization) in {None, Some("")} ==> r == Err(TokenNoProporcionado)
    ensures r.Ok? ==> ExtractToken(authorization).Some? && verify(ExtractToken(authorization).value) == Some(r.value)
    ensures r.Err? && ExtractToken(authorization).Some? && ExtractToken(authorization).value != "" ==>
              r == Err(TokenInvalido) && verify(ExtractToken(authorization).value).None?
  {
    match ExtractToken(authorization)
    case None => Err(TokenNoProporcionado)
    case Some(token) =>
      if token == "" then Err(TokenNoProporcionado)
      else
        match verify(token)
        case None => Err(TokenInvalido)
        case Some(payload) => Ok(payload)
  }

  /** The part of an incoming request the guard reads and writes. */
  class Request {
    const authorization: Option<string>
    var user: Option<Auth.Payload>

    constructor (authorization: Option<string>)
      ensures this.authorization == authorization && user.None?
    {
      this.authorization := authorization;
      user := None;
    }
  }

  /** `canActivate(context)`: on success the request's user becomes the verified payload. */
  method CanActivate(request: Request, verify: string -> Option<Auth.Payload>) returns (r: Result<bool>)
    modifies request
    ensures var a := Autorizar(request.authorization, verify);
      && (a.Ok? ==> r == Ok(true) && request.user == Some(a.value))
      && (a.Err? ==> r == Err(a.error) && request.user == old(request.user))
  {
    var token := ExtractToken(request.authorization);
    if token.None? || token.value == "" {
      return Err(TokenNoProporcionado);
    }
    var payload := verify(token.value);
    if payload.None? {
      return Err(TokenInvalido);
    }
    request.user := payload;
    r := Ok(true);
  }
}
