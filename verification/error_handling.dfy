/**
 The error utilities (`errorHandling`): the error-code taxonomy, the
 classification of a failed request, the bounded error journal and the
 bilingual message lookup. The clock is a parameter (`now`, milliseconds)
 and the journal kept in local storage is passed in and returned.
 */
module ErrorHandling {
  import opened Wrappers

  // ---------------------------------------------------------------------------
  // Codes and records
  // ---------------------------------------------------------------------------

  /** The closed taxonomy `ERROR_CODES`. */
  datatype ErrorCode =
    | AuthFailed | AuthExpired | AuthRequired
    | NetworkError | ApiError | TimeoutError
    | ValidationError | InvalidInput | MissingRequiredField
    | InsufficientFunds | ProduceNotAvailable | BidTooLow
    | UnknownError | ServerError | DatabaseError

  /** The message `createError` substitutes for a missing or empty one. */
  const DefaultMessage: string := "An error occurred"

  /** What an error carries for debugging: a serialised payload, or the whole raw failure. */
  datatype Details = Payload(text: string) | RawFailure(raw: RawError)

  /** The HTTP-client failure shape: a response with a status, a request that got none, a message. */
  datatype Response = Response(status: int, data: Option<string>)
  datatype RawError = RawError(response: Option<Response>, request: Option<string>, message: Option<string>)

  /** `error.request` is truthy: present and not the empty string. */
  predicate HasRequest(raw: RawError) {
    raw.request.Some? && raw.request.value != ""
  }

  /** `AppError`; `timestamp` is in milliseconds. */
  datatype AppError = AppError(code: ErrorCode, message: string, details: Option<Details>,
                               timestamp: int, userId: Option<string>, context: Option<string>)

  // ---------------------------------------------------------------------------
  // Construction and classification
  // ---------------------------------------------------------------------------

  /** `createError`: stamps the error with `now`, substituting the default for an absent or empty message. */
  function CreateError(code: ErrorCode, message: Option<string>, details: Option<Details>,
                       context: Option<string>, now: int): (e: AppError)
    ensures e.code == code && e.details == details && e.context == context
    ensures e.timestamp == now && e.userId == None
    ensures e.message != ""
    ensures message.Some? && message.value != "" ==> e.message == message.value
    ensures message.None? || message.value == "" ==> e.message == DefaultMessage
  {
    var text := if message.Some? && message.value != "" then message.value else DefaultMessage;
    AppError(code, text, details, now, None, context)
  }

  /** The code a response status maps to. */
  function StatusCode(status: int): (code: ErrorCode)
    ensures status == 401 ==> code == AuthFailed
    ensures status == 403 ==> code == AuthRequired
    ensures status == 422 ==> code == ValidationError
    ensures status == 500 ==> code == ServerError
    ensures status !in {401, 403, 422, 500} ==> code == ApiError
  {
    match status
    case 401 => AuthFailed
    case 403 => AuthRequired
    case 422 => ValidationError
    case 500 => ServerError
    case _ => ApiError
  }

  /** The prefix of the message for a status without a dedicated one. */
  const ApiErrorPrefix: string := "API Error: "

  /**
   The message that accompanies a response status: a fixed text for the four
   recognised statuses, otherwise the prefix followed by the status in decimal.
   */
  function StatusMessage(status: int): (m: string)
    ensures status == 401 ==> m == "Unauthorized access"
    ensures status == 403 ==> m == "Access forbidden"
    ensures status == 422 ==> m == "Validation failed"
    ensures status == 500 ==> m == "Internal server error"
    ensures status !in {401, 403, 422, 500} ==>
              |m| > |ApiErrorPrefix| && m[..|ApiErrorPrefix|] == ApiErrorPrefix
    ensures status !in {401, 403, 422, 500} && status >= 0 ==>
              Decimal(m[|ApiErrorPrefix|..]) && DigitsValue(m[|ApiErrorPrefix|..]) == status
    ensures status < 0 ==>
              |m| > |ApiErrorPrefix| + 1 && m[|ApiErrorPrefix|] == '-' &&
              Decimal(m[|ApiErrorPrefix| + 1..]) && DigitsValue(m[|ApiErrorPrefix| + 1..]) == -status
  {
    match status
    case 401 => "Unauthorized access"
    case 403 => "Access forbidden"
    case 422 => "Validation failed"
    case 500 => "Internal server error"
    case _ =>
      PrintedStatus(status);
      ApiErrorPrefix + IntToString(status)
  }

  /**
   After the prefix, the message spells the status: an optional minus sign,
   then its decimal digits without leading zeros.
   */
  lemma PrintedStatus(status: int)
    ensures var m := ApiErrorPrefix + IntToString(status);
            && |m| > |ApiErrorPrefix| && m[..|ApiErrorPrefix|] == ApiErrorPrefix
            && (status >= 0 ==> Decimal(m[|ApiErrorPrefix|..]) && DigitsValue(m[|ApiErrorPrefix|..]) == status)
            && (status < 0 ==>
                  |m| > |ApiErrorPrefix| + 1 && m[|ApiErrorPrefix|] == '-' &&
                  Decimal(m[|ApiErrorPrefix| + 1..]) && DigitsValue(m[|ApiErrorPrefix| + 1..]) == -status)
  {
    var d := IntToString(status);
    var m := ApiErrorPrefix + d;
    AfterPrefix(ApiErrorPrefix, d);
    if status >= 0 {
      NatToStringRoundTrip(status);
    } else {
      NatToStringRoundTrip(-status);
      AfterPrefix("-", NatToString(-status));
      assert m[|ApiErrorPrefix| + 1..] == d[1..];
    }
  }

  /** Concatenation can be split again at the joint. */
  lemma AfterPrefix(p: string, d: string)
    ensures (p + d)[..|p|] == p && (p + d)[|p|..] == d
  {
  }

  function DigitChar(d: int): (c: char)
    requires 0 <= d < 10
    ensures '0' <= c <= '9' && c as int - '0' as int == d
  {
    ('0' as int + d) as char
  }

  /** Every character is a decimal digit. */
  predicate AllDigits(s: string) {
    forall i :: 0 <= i < |s| ==> '0' <= s[i] <= '9'
  }

  /** The usual decimal form of a number: digits only, at least one, no leading zero unless it is "0". */
  predicate Decimal(s: string) {
    |s| > 0 && AllDigits(s) && (|s| == 1 || s[0] != '0')
  }

  /** The decimal digits of `n`, as a template literal prints them. */
  function NatToString(n: nat): (s: string)
    ensures Decimal(s)
    ensures n == 0 ==> s == "0"
    ensures n > 0 ==> s[0] != '0'
  {
    if n < 10 then [DigitChar(n)] else NatToString(n / 10) + [DigitChar(n % 10)]
  }

  /** An integer as a template literal prints it: a minus sign before the digits of a negative number. */
  function IntToString(i: int): (s: string)
    ensures i >= 0 ==> s == NatToString(i)
    ensures i < 0 ==> s == "-" + NatToString(-i)
  {
    if i < 0 then "-" + NatToString(-i) else NatToString(i)
  }

  /** The number a string of decimal digits denotes. */
  function DigitsValue(s: string): nat
    requires AllDigits(s)
  {
    if |s| == 0 then 0
    else DigitsValue(s[..|s| - 1]) * 10 + (s[|s| - 1] as int - '0' as int)
  }

  /** The printed status reads back as the same number. */
  lemma {:induction false} NatToStringRoundTrip(n: nat)
    ensures DigitsValue(NatToString(n)) == n
  {
    if n >= 10 {
      NatToStringRoundTrip(n / 10);
      var s := NatToString(n);
      assert s[..|s| - 1] == NatToString(n / 10);
    }
  }

  /** A decimal form has one digit exactly when its value is below ten. */
  lemma {:induction false} DecimalMagnitude(s: string)
    requires Decimal(s)
    ensures |s| == 1 <==> DigitsValue(s) < 10
    ensures s[0] != '0' ==> DigitsValue(s) > 0
    decreases |s|
  {
    if |s| > 1 {
      var p := s[..|s| - 1];
      assert p[0] == s[0];
      DecimalMagnitude(p);
    }
  }

  /** A number ending in one digit determines both the digit and the number before it. */
  lemma LastDigitSplit(x: int, dx: int, y: int, dy: int)
    requires 0 <= dx < 10 && 0 <= dy < 10 && x * 10 + dx == y * 10 + dy
    ensures x == y && dx == dy
  {
    assert (x - y) * 10 == dy - dx;
  }

  /** Two decimal forms of the same value are the same string: the printed status is the only one. */
  lemma {:induction false} DecimalIsUnique(a: string, b: string)
    requires Decimal(a) && Decimal(b) && DigitsValue(a) == DigitsValue(b)
    ensures a == b
    decreases |a|
  {
    DecimalMagnitude(a);
    DecimalMagnitude(b);
    if |a| > 1 {
      var pa, pb := a[..|a| - 1], b[..|b| - 1];
      var da, db := a[|a| - 1] as int - '0' as int, b[|b| - 1] as int - '0' as int;
      LastDigitSplit(DigitsValue(pa), da, DigitsValue(pb), db);
      assert pa[0] == a[0] && pb[0] == b[0];
      DecimalIsUnique(pa, pb);
      assert a == pa + [a[|a| - 1]] && b == pb + [b[|b| - 1]];
    }
  }

  /**
   What `handleAPIError` makes of a failure, branch by branch: a response
   decides code and message by its status and carries its data; otherwise a
   truthy request is a network error carrying the request; otherwise the error
   is unknown, carries itself and keeps its own message or the default. On
   every branch the context passes through and the error is stamped `now`.
   */
  predicate IsClassified(raw: RawError, context: Option<string>, now: int, e: AppError) {
    && e.context == context && e.timestamp == now && e.userId == None
    && (raw.response.Some? ==>
          e.code == StatusCode(raw.response.value.status) &&
          e.message == StatusMessage(raw.response.value.status) &&
          e.details == (if raw.response.value.data.Some? then Some(Payload(raw.response.value.data.value)) else None))
    && (raw.response.None? && HasRequest(raw) ==>
          e.code == NetworkError && e.message == "Network connection failed" &&
          e.details == Some(Payload(raw.request.value)))
    && (raw.response.None? && !HasRequest(raw) ==>
          e.code == UnknownError && e.details == Some(RawFailure(raw)) &&
          (raw.message.Some? && raw.message.value != "" ==> e.message == raw.message.value) &&
          (raw.message.None? || raw.message.value == "" ==> e.message == DefaultMessage))
  }

  /** The classification of `handleAPIError`: response status, then a truthy request, then unknown. */
  function Classify(raw: RawError, context: Option<string>, now: int): (e: AppError)
    ensures IsClassified(raw, context, now, e)
    ensures e.message != ""
    ensures e.code in {AuthFailed, AuthRequired, ValidationError, ServerError, ApiError, NetworkError, UnknownError}
  {
    match raw.response
    case Some(resp) =>
      var details := if resp.data.Some? then Some(Payload(resp.data.value)) else None;
      CreateError(StatusCode(resp.status), Some(StatusMessage(resp.status)), details, context, now)
    case None =>
      if HasRequest(raw) then
        CreateError(NetworkError, Some("Network connection failed"), Some(Payload(raw.request.value)), context, now)
      else
        CreateError(UnknownError, raw.message, Some(RawFailure(raw)), context, now)
  }

  /** The classification leaves no choice: any two classified errors of one failure are equal. */
  lemma ClassificationIsUnique(raw: RawError, context: Option<string>, now: int, e: AppError, f: AppError)
    requires IsClassified(raw, context, now, e) && IsClassified(raw, context, now, f)
    ensures e == f
  {
  }

  /** A response always wins over a request marker: the request is ignored once a status is present. */
  lemma ResponseTakesPriority(raw: RawError, context: Option<string>, now: int)
    requires raw.response.Some?
    ensures Classify(raw, context, now) == Classify(raw.(request := None), context, now)
  {
  }

  /**
   A network error is reported exactly when there is no response but a truthy
   request; an empty-string request falls through to an unknown error.
   */
  lemma NetworkOnlyWithoutResponse(raw: RawError, context: Option<string>, now: int)
    ensures Classify(raw, context, now).code == NetworkError <==>
              raw.response.None? && raw.request.Some? && raw.request.value != ""
    ensures raw.response.None? && raw.request == Some("") ==> Classify(raw, context, now).code == UnknownError
  {
  }

  // ---------------------------------------------------------------------------
  // The error journal
  // ---------------------------------------------------------------------------

  const JournalCapacity: nat := 50

  /** The last `min(50, |s|)` entries of `s`. */
  function Newest<T>(s: seq<T>): (r: seq<T>)
    ensures |r| <= JournalCapacity
  {
    if |s| > JournalCapacity then s[|s| - JournalCapacity..] else s
  }

  /** The journal update of `logError`: append, then drop the oldest entries beyond 50. */
  function LogError<T>(journal: seq<T>, e: T): (r: seq<T>)
    ensures r == Newest(journal + [e])
    ensures 0 < |r| <= JournalCapacity && r[|r| - 1] == e
  {
    var grown := journal + [e];
    if |grown| > JournalCapacity then grown[|grown| - JournalCapacity..] else grown
  }

  /**
   The shape of one log step: below capacity the error is appended; at or
   above capacity the journal ends up holding exactly 50 entries, the error
   last and the newest of the old entries before it.
   */
  lemma LogErrorShape<T>(journal: seq<T>, e: T)
    ensures |journal| < JournalCapacity ==> LogError(journal, e) == journal + [e]
    ensures |journal| >= JournalCapacity ==> |LogError(journal, e)| == JournalCapacity
    ensures var r := LogError(journal, e);
            forall i :: 0 <= i < |r| - 1 ==> r[i] == journal[|journal| - (|r| - 1) + i]
  {
  }

  /** Logging a series of errors one after another. */
  function LogAll<T>(journal: seq<T>, es: seq<T>): seq<T>
    decreases |es|
  {
    if |es| == 0 then journal else LogAll(LogError(journal, es[0]), es[1..])
  }

  /** Logging a series is logging its first error, then the rest. */
  lemma LogAllStep<T>(journal: seq<T>, es: seq<T>)
    requires |es| > 0
    ensures LogAll(journal, es) == LogAll(Newest(journal + [es[0]]), es[1..])
  {
  }

  /** Eviction is purely by insertion order: the journal keeps the newest 50 of everything logged. */
  lemma {:induction false} LogAllKeepsNewest<T>(journal: seq<T>, es: seq<T>)
    requires |journal| <= JournalCapacity
    ensures LogAll(journal, es) == Newest(journal + es)
    decreases |es|
  {
    if |es| > 0 {
      var grown := journal + [es[0]];
      LogAllStep(journal, es);
      LogAllKeepsNewest(Newest(grown), es[1..]);
      NewestOfNewest(grown, es[1..]);
      assert grown + es[1..] == journal + es;
    }
  }

  lemma NewestOfNewest<T>(s: seq<T>, t: seq<T>)
    ensures Newest(Newest(s) + t) == Newest(s + t)
  {
    if |s| > JournalCapacity {
      var k := |s| - JournalCapacity;
      var u := s[k..] + t;
      assert (s + t)[k..] == u;
      assert |u| == JournalCapacity + |t|;
      if |u| > JournalCapacity {
        assert Newest(u) == u[|t|..];
        assert Newest(s + t) == (s + t)[k + |t|..];
        assert (s + t)[k..][|t|..] == (s + t)[k + |t|..];
      } else {
        assert Newest(u) == u && |t| == 0;
        assert s + t == s;
      }
    }
  }

  /** After fifty or more errors the journal holds exactly the fifty most recent. */
  lemma JournalHoldsLastFifty<T>(journal: seq<T>, es: seq<T>)
    requires |journal| <= JournalCapacity && |es| >= JournalCapacity
    ensures LogAll(journal, es) == es[|es| - JournalCapacity..]
  {
    LogAllKeepsNewest(journal, es);
    assert (journal + es)[|journal + es| - JournalCapacity..] == es[|es| - JournalCapacity..];
  }

  /** `handleAPIError`: classify, then log. */
  function HandleAPIError(raw: RawError, context: Option<string>, now: int, journal: seq<AppError>)
    : (r: (AppError, seq<AppError>))
    ensures IsClassified(raw, context, now, r.0) && r.0.message != ""
    ensures r.1 == Newest(journal + [r.0])
    ensures |r.1| <= JournalCapacity && r.1[|r.1| - 1] == r.0
  {
    var e := Classify(raw, context, now);
    (e, LogError(journal, e))
  }

  // ---------------------------------------------------------------------------
  // Messages
  // ---------------------------------------------------------------------------

  datatype Language = En | Hi

  /** `ERROR_MESSAGES[lang][code]`, when the table has an entry. */
  function Translation(lang: Language, code: ErrorCode): (t: Option<string>)
    ensures t.Some? <==> code in TranslatedCodes
    ensures t.Some? ==> |t.value| > 0
  {
    match lang
    case En =>
      (match code
       case AuthFailed => Some("Authentication failed. Please check your credentials.")
       case AuthExpired => Some("Your session has expired. Please login again.")
       case AuthRequired => Some("Please login to continue.")
       case NetworkError => Some("Network error. Please check your connection.")
       case ApiError => Some("Server error. Please try again later.")
       case ValidationError => Some("Please check your input and try again.")
       case ProduceNotAvailable => Some("This produce is no longer available.")
       case BidTooLow => Some("Your bid is too low. Please increase your bid amount.")
       case UnknownError => Some("An unexpected error occurred. Please try again.")
       case _ => None)
    case Hi =>
      (match code
       case AuthFailed => Some("प्रमाणीकरण असफल। कृपया अपनी जानकारी जांचें।")
       case AuthExpired => Some("आपका सत्र समाप्त हो गया है। कृपया फिर से लॉगिन करें।")
       case AuthRequired => Some("जारी रखने के लिए कृपया लॉगिन करें।")
       case NetworkError => Some("नेटवर्क त्रुटि। कृपया अपना कनेक्शन जांचें।")
       case ApiError => Some("सर्वर त्रुटि। कृपया बाद में पुनः प्रयास करें।")
       case ValidationError => Some("कृपया अपना इनपुट जांचें और पुनः प्रयास करें।")
       case ProduceNotAvailable => Some("यह फसल अब उपलब्ध नहीं है।")
       case BidTooLow => Some("आपकी बोली बहुत कम है। कृपया अपनी बोली राशि बढ़ाएं।")
       case UnknownError => Some("एक अप्रत्याशित त्रुटि हुई। कृपया पुनः प्रयास करें।")
       case _ => None)
  }

  /** The codes with a translated message. */
  const TranslatedCodes: set<ErrorCode> := {
    AuthFailed, AuthExpired, AuthRequired, NetworkError, ApiError,
    ValidationError, ProduceNotAvailable, BidTooLow, UnknownError
  }

  /** Both languages translate the same codes, and no Hindi text is the English one left untranslated. */
  lemma TranslationCoverage(code: ErrorCode)
    ensures Translation(En, code).Some? <==> Translation(Hi, code).Some?
    ensures Translation(En, code).Some? ==> Translation(En, code).value != Translation(Hi, code).value
  {
    match code
    case AuthFailed =>
    case AuthExpired =>
    case AuthRequired =>
    case NetworkError =>
    case ApiError =>
    case ValidationError =>
    case ProduceNotAvailable =>
    case BidTooLow =>
    case UnknownError =>
    case _ =>
  }

  /** `getErrorMessage`: the translation, else the error's own message, else the default; English by default. */
  function GetErrorMessage(e: AppError, lang: Language := En): (text: string)
    ensures text != ""
    ensures e.code in TranslatedCodes ==> Translation(lang, e.code) == Some(text)
    ensures e.code !in TranslatedCodes && e.message != "" ==> text == e.message
    ensures e.code !in TranslatedCodes && e.message == "" ==> text == DefaultMessage
  {
    match Translation(lang, e.code)
    case Some(t) => t
    case None => if e.message != "" then e.message else DefaultMessage
  }

  /** A server error (status 500) has no translation and shows the classifier's own message in either language. */
  lemma ServerErrorShowsOwnMessage(raw: RawError, context: Option<string>, now: int, lang: Language)
    requires raw.response.Some? && raw.response.value.status == 500
    ensures GetErrorMessage(Classify(raw, context, now), lang) == "Internal server error"
  {
  }

  /** Every other code the classifier produces has a translation in both languages. */
  lemma ClassifiedCodesTranslated(raw: RawError, context: Option<string>, now: int, lang: Language)
    requires !(raw.response.Some? && raw.response.value.status == 500)
    ensures Translation(lang, Classify(raw, context, now).code).Some?
  {
  }

  // ---------------------------------------------------------------------------
  // The error handler of the hook
  // ---------------------------------------------------------------------------

  /** What the hook's `handleError` receives: an application `CustomError` or anything else. */
  datatype Thrown =
    | Custom(code: ErrorCode, message: string, details: Option<Details>, ownContext: Option<string>)
    | Other(raw: RawError)

  /**
   `handleError`: a `CustomError` keeps its code, message and details, takes
   the handler's context and is not journalled; anything else goes through
   `handleAPIError`.
   */
  function HandleError(thrown: Thrown, context: Option<string>, now: int, journal: seq<AppError>)
    : (r: (AppError, seq<AppError>))
    ensures thrown.Custom? ==>
              && r.0.code == thrown.code && r.0.details == thrown.details
              && (thrown.message != "" ==> r.0.message == thrown.message)
              && (thrown.message == "" ==> r.0.message == DefaultMessage)
              && r.0.context == context && r.0.userId == None
              && r.1 == journal
    ensures thrown.Other? ==> r == HandleAPIError(thrown.raw, context, now, journal)
    ensures thrown.Other? ==> IsClassified(thrown.raw, context, now, r.0) && r.1 == Newest(journal + [r.0])
    ensures r.0.message != "" && r.0.timestamp == now
  {
    match thrown
    case Custom(code, message, details, _) => (CreateError(code, Some(message), details, context, now), journal)
    case Other(raw) => HandleAPIError(raw, context, now, journal)
  }
}
