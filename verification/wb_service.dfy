/**
 * WbService (src/services/wb.service.ts): what `fetchTariffs` makes of the
 * outcome of its GET request. The request itself is not modelled; its
 * outcome is the input.
 */
module WbService {
  import opened Wrappers
  import opened WbTypes
  import opened ApiErrors

  /** The HTTP response attached to a failed request: its status and its parsed body, if any. */
  datatype ErrorResponse = ErrorResponse(status: int, data: Option<ErrorBody>)

  /** What the GET request can throw. */
  datatype RequestFailure =
    /** An axios error: its message and the server's response, absent on a transport failure or timeout. */
    | AxiosError(message: string, response: Option<ErrorResponse>)
    /** Anything else that was thrown, by its description. */
    | UnexpectedError(description: string)

  const FailedPrefix := "Failed to fetch WB tariffs: "
  const UnexpectedMessage := "An unexpected error occurred while fetching WB tariffs."

  /** `error.response?.data?.detail || error.message`: the provider's detail unless missing or empty. */
  function DetailOrMessage(message: string, response: Option<ErrorResponse>): string {
    match response
    case Some(ErrorResponse(_, Some(ErrorBody(Some(detail))))) => if detail != "" then detail else message
    case _ => message
  }

  /** The catch block: every failure becomes a `WbApiError`. */
  function ToWbApiError(failure: RequestFailure): ApiError {
    match failure
    case AxiosError(message, response) =>
      WbApiError(FailedPrefix + DetailOrMessage(message, response),
                 match response case Some(r) => Some(r.status) case None => None,
                 match response case Some(ErrorResponse(_, Some(body))) => Some(ProviderBody(body)) case _ => None)
    case UnexpectedError(description) =>
      WbApiError(UnexpectedMessage, None, Some(OriginalError(description)))
  }

  /**
   * `fetchTariffs`: the response body unchanged on success; on failure a
   * rethrown `WbApiError`, never a silent result.
   */
  function FetchTariffs(outcome: Result<TariffsApiResponse, RequestFailure>): (r: Result<TariffsApiResponse, ApiError>)
    ensures r.Success? <==> outcome.Success?
    ensures outcome.Success? ==> r.value == outcome.value
    ensures r.Failure? ==> r.error.WbApiError? && r.error.Name() == "WbApiError"
  {
    match outcome
    case Success(body) => Success(body)
    case Failure(failure) => Failure(ToWbApiError(failure))
  }

  /**
   * An axios failure: the message is the prefix followed by the provider's
   * non-empty `detail` or else the axios message; the status code and the
   * details are the response's status and body, absent without a response.
   */
  lemma AxiosErrorMapping(message: string, response: Option<ErrorResponse>)
    ensures var e := ToWbApiError(AxiosError(message, response));
      && e.message[..|FailedPrefix|] == FailedPrefix
      && (e.statusCode.Some? <==> response.Some?)
      && (response.Some? ==> e.statusCode == Some(response.value.status))
      && (e.details.Some? <==> response.Some? && response.value.data.Some?)
      && (e.details.Some? ==> e.details == Some(ProviderBody(response.value.data.value)))
      && (response.Some? && response.value.data.Some? && response.value.data.value.detail.Some?
          && response.value.data.value.detail.value != ""
          ==> e.message == FailedPrefix + response.value.data.value.detail.value)
      && (!(response.Some? && response.value.data.Some? && response.value.data.value.detail.Some?
            && response.value.data.value.detail.value != "")
          ==> e.message == FailedPrefix + message)
  {
  }

  /** Any other failure: the fixed message, no status code, the original error as details. */
  lemma UnexpectedErrorMapping(description: string)
    ensures ToWbApiError(UnexpectedError(description))
         == WbApiError(UnexpectedMessage, None, Some(OriginalError(description)))
  {
  }
}
