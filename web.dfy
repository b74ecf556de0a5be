/** What an HTTP GET can come back with, as seen by the scripts. The network
    itself is outside the model: every fetch is an input. */
module Web {

  /** `Page`: a response whose status passed `raise_for_status()`;
      `RequestError`: any `requests.RequestException` (connection error,
      timeout, non-2xx status); `OtherError`: any other exception. */
  datatype Response = Page(text: string) | RequestError | OtherError
}
