/**
 * `handleApiError`: turns whatever a request threw into the text shown to the
 * user. The HTTP client itself (base URL, 10-second timeout, `request`,
 * `requestPaginated`) is not part of this model.
 */
module Client {
  import opened Wrappers
  import opened JsNumber
  import opened SwapiTypes

  /** The `response` of an axios error: the HTTP status and the decoded body. */
  datatype ErrorResponse = ErrorResponse(status: JsInt, data: ApiError)

  /**
   * A caught value. An axios error may carry a response, and records whether
   * the request went out (`error.request` set); anything else thrown is `NotAxios`.
   */
  datatype CaughtError = NotAxios | AxiosError(response: Option<ErrorResponse>, requestSent: bool)

  const NoResponseMessage: string := "No response from server. Check your internet connection."

  const UnexpectedMessage: string := "An unexpected error occurred"

  const StatusPrefix: string := "API Error: "

  /** A string field counts when present and non-empty: JavaScript `||` skips `undefined` and `""`. */
  predicate IsFilled(field: Option<string>) {
    field.Some? && |field.value| > 0
  }

  /** JavaScript `field || fallback` for an optional string field. */
  function OrElse(field: Option<string>, fallback: string): string {
    if IsFilled(field) then field.value else fallback
  }

  function HandleApiError(error: CaughtError): (m: string)
    ensures |m| > 0
    ensures error.AxiosError? && error.response.Some? ==>
      var body := error.response.value.data;
      && (IsFilled(body.detail) ==> m == body.detail.value)
      && (!IsFilled(body.detail) && IsFilled(body.message) ==> m == body.message.value)
      && (!IsFilled(body.detail) && !IsFilled(body.message) ==>
            |m| > |StatusPrefix| && m[..|StatusPrefix|] == StatusPrefix
            && ParseInteger(m[|StatusPrefix|..]) == Some(error.response.value.status))
    ensures error.AxiosError? && error.response.None? && error.requestSent ==> m == NoResponseMessage
    ensures error.NotAxios? || (error.response.None? && !error.requestSent) ==> m == UnexpectedMessage
  {
    if error.AxiosError? && error.response.Some? then
      var body := error.response.value.data;
      var status := NumberToString(error.response.value.status);
      NumberToStringRoundTrip(error.response.value.status);
      assert (StatusPrefix + status)[|StatusPrefix|..] == status;
      OrElse(body.detail, OrElse(body.message, StatusPrefix + status))
    else if error.AxiosError? && error.requestSent then NoResponseMessage
    else UnexpectedMessage
  }

  /**
   * Every message is the body's detail, the body's message, the status text,
   * or one of the two fixed texts; there is no separate timeout text.
   */
  lemma MessageOrigins(error: CaughtError)
    ensures var m := HandleApiError(error);
      || m == NoResponseMessage
      || m == UnexpectedMessage
      || (error.AxiosError? && error.response.Some? &&
          var r := error.response.value;
          || r.data.detail == Some(m)
          || r.data.message == Some(m)
          || m == StatusPrefix + NumberToString(r.status))
  {
  }

  /**
   * A response wins over the request flag: with a response present the
   * message does not depend on whether the request was recorded, and it is
   * the no-response text only if the server itself sent that text.
   */
  lemma ResponseTakesPriority(response: ErrorResponse)
    ensures HandleApiError(AxiosError(Some(response), true)) == HandleApiError(AxiosError(Some(response), false))
    ensures HandleApiError(AxiosError(Some(response), true)) == NoResponseMessage ==>
      response.data.detail == Some(NoResponseMessage) || response.data.message == Some(NoResponseMessage)
  {
  }

  /** The body's own `status` field is never consulted; the response status is. */
  lemma BodyStatusIgnored(status: JsInt, detail: Option<string>, message: Option<string>, s1: Option<JsInt>, s2: Option<JsInt>, sent: bool)
    ensures HandleApiError(AxiosError(Some(ErrorResponse(status, ApiError(detail, s1, message))), sent))
         == HandleApiError(AxiosError(Some(ErrorResponse(status, ApiError(detail, s2, message))), sent))
  {
  }

  /** Distinct statuses with an empty body give distinct messages. */
  lemma StatusMessageIdentifiesStatus(a: JsInt, b: JsInt, body: ApiError)
    requires !IsFilled(body.detail) && !IsFilled(body.message)
    ensures (HandleApiError(AxiosError(Some(ErrorResponse(a, body)), true))
          == HandleApiError(AxiosError(Some(ErrorResponse(b, body)), true))) <==> a == b
  {
    var ma := HandleApiError(AxiosError(Some(ErrorResponse(a, body)), true));
    var mb := HandleApiError(AxiosError(Some(ErrorResponse(b, body)), true));
    if ma == mb {
      assert ParseInteger(ma[|StatusPrefix|..]) == Some(a);
      assert ParseInteger(mb[|StatusPrefix|..]) == Some(b);
    }
  }
}
