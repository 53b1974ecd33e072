/** The application's error table: every error code, the HTTP status it is
    reported with and its user-facing message, and the ways the transfer
    code signals a failure. */
module Exceptions {
  import opened Wrappers

  const HTTP_BAD_REQUEST := 400
  const HTTP_UNAUTHORIZED := 401
  const HTTP_NOT_FOUND := 404
  const HTTP_INTERNAL_SERVER_ERROR := 500

  /** One constructor per property of EXCEPTION_CODE. */
  datatype ErrorCode =
    | LimitExcess | NegativeNumber | WrongParameter | InvalidToken
    | InternalServerError | QuoteExpired | UserNotFound | NotMatching
    | QuoteNotFound | AlreadyWired | RecordNotFound | IncorrectPasswordLength
    | EmptyUserId | EmptyUserName | EmptyIdType | EmptyIdValue
    | MustBeString | MustBeNumber | MustBeEmail

  /** The response body written for an error: `resultCode` and `resultMsg`. */
  datatype ResponseBody = ResponseBody(resultCode: int, resultMsg: string)

  /** The property name under which `e` is declared, in EXCEPTION_CODE and in
      EXCEPTIONS alike. */
  function Key(e: ErrorCode): string
  {
    match e
    case LimitExcess => "LIMIT_EXCESS"
    case NegativeNumber => "NEGATIVE_NUMBER"
    case WrongParameter => "WRONG_PARAMETER"
    case InvalidToken => "INVALID_TOKEN"
    case InternalServerError => "INTERNAL_SERVER_ERROR"
    case QuoteExpired => "QUOTE_EXPIRED"
    case UserNotFound => "USER_NOT_FOUND"
    case NotMatching => "NOT_MATCHING"
    case QuoteNotFound => "QUOTE_NOT_FOUND"
    case AlreadyWired => "ALREADY_WIRED"
    case RecordNotFound => "RECORD_NOT_FOUND"
    case IncorrectPasswordLength => "INCORRECT_PASSWORD_LENGTH"
    case EmptyUserId => "EMPTY_USER_ID"
    case EmptyUserName => "EMPTY_USER_NAME"
    case EmptyIdType => "EMPTY_ID_TYPE"
    case EmptyIdValue => "EMPTY_ID_VALUE"
    case MustBeString => "MUST_BE_STRING"
    case MustBeNumber => "MUST_BE_NUMBER"
    case MustBeEmail => "MUST_BE_EMAIL"
  }

  /** `EXCEPTION_CODE.X`: the string value declared for property X. The same
      strings as `Key`, written out again because the source declares the
      names and the values separately; `TablesCoverEveryCode` proves that
      the two agree. */
  function CodeValue(e: ErrorCode): string
  {
    match e
    case LimitExcess => "LIMIT_EXCESS"
    case NegativeNumber => "NEGATIVE_NUMBER"
    case WrongParameter => "WRONG_PARAMETER"
    case InvalidToken => "INVALID_TOKEN"
    case InternalServerError => "INTERNAL_SERVER_ERROR"
    case QuoteExpired => "QUOTE_EXPIRED"
    case UserNotFound => "USER_NOT_FOUND"
    case NotMatching => "NOT_MATCHING"
    case QuoteNotFound => "QUOTE_NOT_FOUND"
    case AlreadyWired => "ALREADY_WIRED"
    case RecordNotFound => "RECORD_NOT_FOUND"
    case IncorrectPasswordLength => "INCORRECT_PASSWORD_LENGTH"
    case EmptyUserId => "EMPTY_USER_ID"
    case EmptyUserName => "EMPTY_USER_NAME"
    case EmptyIdType => "EMPTY_ID_TYPE"
    case EmptyIdValue => "EMPTY_ID_VALUE"
    case MustBeString => "MUST_BE_STRING"
    case MustBeNumber => "MUST_BE_NUMBER"
    case MustBeEmail => "MUST_BE_EMAIL"
  }

  /** `EXCEPTIONS.X`: the response body declared for property X. */
  function Response(e: ErrorCode): ResponseBody
  {
    match e
    case LimitExcess => ResponseBody(HTTP_BAD_REQUEST, "오늘 송금 한도 초과 입니다.")
    case NegativeNumber => ResponseBody(HTTP_BAD_REQUEST, "송금액은 음수가 될 수 없습니다.")
    case WrongParameter => ResponseBody(HTTP_BAD_REQUEST, "잘못된 파라미터 입니다.")
    case InvalidToken => ResponseBody(HTTP_UNAUTHORIZED, "사용할 수 없는 토큰입니다.")
    case InternalServerError => ResponseBody(HTTP_INTERNAL_SERVER_ERROR, "알 수 없는 에러입니다.")
    case QuoteExpired => ResponseBody(HTTP_BAD_REQUEST, "견적서가 만료 되었습니다.")
    case UserNotFound => ResponseBody(HTTP_NOT_FOUND, "존재하지 않는 사용자 입니다.")
    case NotMatching => ResponseBody(HTTP_BAD_REQUEST, "정보가 일치하지 않습니다.")
    case QuoteNotFound => ResponseBody(HTTP_NOT_FOUND, "존재하지 않는 견적서 입니다.")
    case AlreadyWired => ResponseBody(HTTP_BAD_REQUEST, "이미 송금이 완료된 견적서 입니다. 견적서 재사용은 불가합니다.")
    case RecordNotFound => ResponseBody(HTTP_NOT_FOUND, "기록을 찾을 수 없습니다.")
    case IncorrectPasswordLength => ResponseBody(HTTP_NOT_FOUND, "비밀번호 길이는 4 ~ 8 입니다.")
    case EmptyUserId => ResponseBody(HTTP_BAD_REQUEST, "이메일이 빠졌습니다.")
    case EmptyUserName => ResponseBody(HTTP_BAD_REQUEST, "이름이 빠졌습니다.")
    case EmptyIdType => ResponseBody(HTTP_BAD_REQUEST, "ID_TYPE이 빠졌습니다.")
    case EmptyIdValue => ResponseBody(HTTP_BAD_REQUEST, "ID_VALUE가 빠졌습니다.")
    case MustBeString => ResponseBody(HTTP_BAD_REQUEST, "이 필드는 String 값이어야 합니다.")
    case MustBeEmail => ResponseBody(HTTP_BAD_REQUEST, "이 필드는 이메일이어야 합니다.")
    case MustBeNumber => ResponseBody(HTTP_BAD_REQUEST, "이 필드는 Number 값이어야 합니다.")
  }

  function Status(e: ErrorCode): int { Response(e).resultCode }

  function Message(e: ErrorCode): string { Response(e).resultMsg }

  /** The properties of EXCEPTION_CODE, in declaration order. */
  const EXCEPTION_CODE_KEYS: seq<ErrorCode> := [
    LimitExcess, NegativeNumber, WrongParameter, InvalidToken, InternalServerError,
    QuoteExpired, UserNotFound, NotMatching, QuoteNotFound, AlreadyWired,
    RecordNotFound, IncorrectPasswordLength, EmptyUserId, EmptyUserName,
    EmptyIdType, EmptyIdValue, MustBeString, MustBeNumber, MustBeEmail
  ]

  /** The properties of EXCEPTIONS, in declaration order (MUST_BE_EMAIL comes
      before MUST_BE_NUMBER here). */
  const EXCEPTIONS_KEYS: seq<ErrorCode> := [
    LimitExcess, NegativeNumber, WrongParameter, InvalidToken, InternalServerError,
    QuoteExpired, UserNotFound, NotMatching, QuoteNotFound, AlreadyWired,
    RecordNotFound, IncorrectPasswordLength, EmptyUserId, EmptyUserName,
    EmptyIdType, EmptyIdValue, MustBeString, MustBeEmail, MustBeNumber
  ]

  /** The first of `codes` whose property name is `key`. */
  function Find(codes: seq<ErrorCode>, key: string): (r: Option<ErrorCode>)
    ensures r.Some? ==> r.value in codes && Key(r.value) == key
    ensures r.None? ==> forall e :: e in codes ==> Key(e) != key
  {
    if |codes| == 0 then None
    else if Key(codes[0]) == key then Some(codes[0])
    else Find(codes[1..], key)
  }

  /** `EXCEPTIONS[key]` for an arbitrary string, `undefined` when no
      property has that name. */
  function Lookup(key: string): Option<ResponseBody>
  {
    match Find(EXCEPTIONS_KEYS, key)
    case Some(e) => Some(Response(e))
    case None => None
  }

  /** Both tables declare every code, and each code's EXCEPTION_CODE value
      is its own property name. */
  lemma TablesCoverEveryCode(e: ErrorCode)
    ensures e in EXCEPTION_CODE_KEYS && e in EXCEPTIONS_KEYS
    ensures CodeValue(e) == Key(e)
  {
  }

  /** Distinct codes have distinct property names. */
  lemma KeyInjective(a: ErrorCode, b: ErrorCode)
    requires Key(a) == Key(b)
    ensures a == b
  {
  }

  /** `EXCEPTIONS[EXCEPTION_CODE.X]` is the entry declared for X, for every
      code X. */
  lemma {:induction false} LookupCodeValue(e: ErrorCode)
    ensures Lookup(CodeValue(e)) == Some(Response(e))
  {
    TablesCoverEveryCode(e);
    var found := Find(EXCEPTIONS_KEYS, CodeValue(e));
    assert found.Some?;
    KeyInjective(found.value, e);
  }

  /** Exactly the four not-found style codes are reported with 404, and this
      includes INCORRECT_PASSWORD_LENGTH. */
  lemma NotFoundCodes(e: ErrorCode)
    ensures Status(e) == HTTP_NOT_FOUND <==>
      e == UserNotFound || e == QuoteNotFound || e == RecordNotFound || e == IncorrectPasswordLength
  {
  }

  /** INVALID_TOKEN is the only 401 and INTERNAL_SERVER_ERROR the only 500;
      every other code is a 400. */
  lemma StatusByCode(e: ErrorCode)
    ensures Status(e) == HTTP_UNAUTHORIZED <==> e == InvalidToken
    ensures Status(e) == HTTP_INTERNAL_SERVER_ERROR <==> e == InternalServerError
    ensures Status(e) == HTTP_BAD_REQUEST <==>
      !(e == InvalidToken || e == InternalServerError || e == UserNotFound ||
        e == QuoteNotFound || e == RecordNotFound || e == IncorrectPasswordLength)
  {
  }

  /** No two codes share a message, so a message identifies its code. */
  lemma MessagesDistinct(a: ErrorCode, b: ErrorCode)
    requires Message(a) == Message(b)
    ensures a == b
  {
  }

  /** How the transfer code signals a failure; each kind reaches the caller
      differently. */
  datatype Fault =
      /** `Error(EXCEPTION_CODE.X)`: the Error's message is the code's value. */
    | Coded(code: ErrorCode)
      /** `Error(EXCEPTIONS[X].resultMsg)`: the Error's message is the text. */
    | Described(code: ErrorCode)
      /** `ThrowHttpException(EXCEPTIONS[X])`: an HTTP exception whose body
          and status are the table entry. */
    | Http(code: ErrorCode)
      /** A property read on `undefined` (an unsupported currency, a rate the
          feed did not deliver). */
    | TypeFault
      /** A bare string thrown, as the rate feed's transport failure does. */
    | Thrown(text: string)
      /** A division by a zero rate, which JavaScript turns into Infinity or
          NaN and `real` cannot represent. */
    | NonFiniteAmount

  /** The transfer controller answers a rejected request with
      `EXCEPTIONS[error.message]`. That finds the entry for a coded rejection
      and nothing for a rejection carrying the message text. Every other
      failure finds nothing too: an HttpException built from a body without
      a `message` field has the generic message "Http Exception", a
      TypeError's message is the runtime's own sentence, and a bare string
      has no `message` at all; none of these is a property name. */
  function ControllerBody(f: Fault): (r: Option<ResponseBody>)
    ensures f.Coded? ==> r == Some(Response(f.code))
    ensures f.Described? ==> r == None
    ensures !f.Coded? && !f.Described? ==> r == None
  {
    match f
    case Coded(c) => LookupCodeValue(c); Lookup(CodeValue(c))
    case Described(c) => MessageIsNoKey(c); Lookup(Message(c))
    case _ => None
  }

  /** No message text is also a property name, so looking one up finds
      nothing. */
  lemma MessageIsNoKey(e: ErrorCode)
    ensures Lookup(Message(e)) == None
  {
    forall c | c in EXCEPTIONS_KEYS
      ensures Key(c) != Message(e)
    {
      KeyEndsInLetter(c);
      MessageEndsInPeriod(e);
    }
  }

  /** Every property name ends in a capital letter. */
  lemma KeyEndsInLetter(c: ErrorCode)
    ensures |Key(c)| > 0 && 'A' <= Key(c)[|Key(c)| - 1] <= 'Z'
  {
  }

  /** Every message is a sentence ending in a period. */
  lemma MessageEndsInPeriod(e: ErrorCode)
    ensures |Message(e)| > 0 && Message(e)[|Message(e)| - 1] == '.'
  {
  }
}
