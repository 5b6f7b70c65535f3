/** The error records of src/common/errors/api.errors.ts. */
module ApiErrors {
  import opened Wrappers

  /** The provider's JSON error body; only its `detail` property is ever read. */
  datatype ErrorBody = ErrorBody(detail: Option<string>)

  /** What a `WbApiError` carries as `details`: the provider's body or the original thrown value. */
  datatype ErrorDetails = ProviderBody(body: ErrorBody) | OriginalError(description: string)

  /**
   * `ApiError` and its subclass `WbApiError`. Both are `ApiError`s; they
   * differ in the `name` they set and in the two extra fields of the subclass.
   */
  datatype ApiError =
    | ApiError(message: string)
    | WbApiError(message: string, statusCode: Option<int>, details: Option<ErrorDetails>)
  {
    /** The `name` property the constructors assign. */
    function Name(): string {
      if ApiError? then "ApiError" else "WbApiError"
    }
  }
}
