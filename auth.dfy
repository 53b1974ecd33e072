/** The bearer-token guard: reading the token from the `authorization`
    header and the decision of `canActivate`. Token verification is a
    parameter: it yields the signed payload or nothing. */
module Auth {
  import opened Wrappers
  import opened Strings
  import opened Exceptions

  /** The claims the login signs into a token. */
  datatype Payload = Payload(username: string, userId: string)

  const BEARER: string := "Bearer"

  /** The body of both Unauthorized replies. */
  const TOKEN_REJECTED: ResponseBody := ResponseBody(HTTP_UNAUTHORIZED, "사용할 수 없는 토큰입니다.")

  /** extractTokenFromHeader: the header split on single spaces; the second
      segment when the first is exactly `Bearer`, and nothing otherwise. */
  function ExtractToken(authorization: Option<string>): (r: Option<string>)
    ensures authorization.None? ==> r.None?
    ensures r.Some? ==> ' ' !in r.value
    ensures r.Some? ==>
      var head := BEARER + " " + r.value;
      && head <= authorization.value
      && (|authorization.value| == |head| || authorization.value[|head|] == ' ')
  {
    match authorization
    case None => None
    case Some(h) =>
      var parts := Split(h, ' ');
      if parts[0] == BEARER && |parts| >= 2 then
        LeadingSegments(h, ' ');
        Some(parts[1])
      else None
  }

  /** The first two segments of a split, with the separator between them,
      open the string, and the separator or the end follows them. */
  lemma LeadingSegments(s: string, sep: char)
    requires |Split(s, sep)| >= 2
    ensures var xs := Split(s, sep); var head := xs[0] + [sep] + xs[1];
      && head <= s
      && (|s| == |head| || s[|head|] == sep)
  {
    var xs := Split(s, sep);
    JoinSplit(s, sep);
    assert s == xs[0] + [sep] + Join(xs[1..], sep);
    if |xs| > 2 {
      assert xs[1..][1..] == xs[2..];
      assert Join(xs[1..], sep) == xs[1] + [sep] + Join(xs[2..], sep);
      var head := xs[0] + [sep] + xs[1];
      assert s == head + [sep] + Join(xs[2..], sep);
    }
  }

  /** The converse: a header that opens with `Bearer`, one space and a
      space-free token, followed by nothing or by a space, yields that
      token, whatever comes after. */
  lemma {:induction false} BearerHeaderYieldsToken(token: string, rest: string)
    requires ' ' !in token
    requires rest == "" || rest[0] == ' '
    ensures ExtractToken(Some(BEARER + " " + token + rest)) == Some(token)
  {
    var h := BEARER + " " + token + rest;
    assert h == BEARER + [' '] + (token + rest);
    SplitAfterSegment(BEARER, ' ', token + rest);
    if rest == "" {
      assert token + rest == token;
      SplitPlain(token, ' ');
    } else {
      assert token + rest == token + [' '] + rest[1..];
      SplitAfterSegment(token, ' ', rest[1..]);
    }
  }

  /** The scheme is compared case-sensitively. */
  lemma LowerCaseSchemeRejected()
    ensures ExtractToken(Some("bearer abc")) == None
  {
    assert "bearer abc" == "bearer" + [' '] + "abc";
    SplitAfterSegment("bearer", ' ', "abc");
  }

  /** A bare scheme, or an empty header, carries no token. */
  lemma BareSchemeRejected()
    ensures ExtractToken(Some("Bearer")) == None
    ensures ExtractToken(Some("")) == None
  {
    SplitPlain("Bearer", ' ');
  }

  /** A doubled space after the scheme yields an empty token. */
  lemma DoubledSpaceYieldsEmptyToken()
    ensures ExtractToken(Some("Bearer  abc")) == Some("")
  {
    assert "Bearer  abc" == BEARER + [' '] + ("" + [' '] + "abc");
    SplitAfterSegment(BEARER, ' ', "" + [' '] + "abc");
    SplitAfterSegment("", ' ', "abc");
  }

  /** canActivate as a decision: a public handler passes without reading
      the header and sets no user; otherwise a missing or empty token and a
      failed verification are both Unauthorized with the same body, and a
      verified token passes with its payload. */
  function GuardDecision(isPublic: bool, authorization: Option<string>,
                         verify: string -> Option<Payload>): (r: Result<Option<Payload>, ResponseBody>)
    ensures isPublic ==> r == Success(None)
    ensures r.Failure? ==> r.error == TOKEN_REJECTED && r.error.resultCode == 401
    ensures r.Failure? <==>
      && !isPublic
      && (ExtractToken(authorization) !in {None, Some("")} ==> verify(ExtractToken(authorization).value).None?)
    ensures !isPublic && r.Success? ==>
      && ExtractToken(authorization).Some? && ExtractToken(authorization).value != ""
      && r.value == verify(ExtractToken(authorization).value) && r.value.Some?
  {
    if isPublic then Success(None)
    else
      match ExtractToken(authorization)
      case None => Failure(TOKEN_REJECTED)
      case Some(token) =>
        if token == "" then Failure(TOKEN_REJECTED)
        else
          match verify(token)
          case None => Failure(TOKEN_REJECTED)
          case Some(payload) => Success(Some(payload))
  }

  /** The incoming request: its header and the user the guard attaches. */
  class Request {
    const authorization: Option<string>
    var user: Option<Payload>

    constructor (authorization: Option<string>)
      ensures this.authorization == authorization && user == None
    {
      this.authorization := authorization;
      user := None;
    }
  }

  /** canActivate: passes or throws Unauthorized; on a verified token the
      payload is stored on the request, and nothing is stored otherwise. */
  method CanActivate(isPublic: bool, request: Request, verify: string -> Option<Payload>)
    returns (r: Outcome<ResponseBody>)
    modifies request
    ensures var d := GuardDecision(isPublic, request.authorization, verify);
      && (r.Pass? <==> d.Success?)
      && (r.Fail? ==> r.error == TOKEN_REJECTED)
      && request.user == (if d.Success? && d.value.Some? then d.value else old(request.user))
  {
    if isPublic {
      return Pass;
    }
    var token := ExtractToken(request.authorization);
    if token.None? || token.value == "" {
      return Fail(TOKEN_REJECTED);
    }
    var payload := verify(token.value);
    if payload.None? {
      return Fail(TOKEN_REJECTED);
    }
    request.user := payload;
    r := Pass;
  }
}
