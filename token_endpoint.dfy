/**
 * The token endpoint of the music provider, seen from the caller: one POST of a
 * client-credentials grant (section 4.4 of RFC 6749, the client authenticated
 * with Basic credentials per section 2 of RFC 7617) ends in one of three ways.
 * The exchange itself is not modelled; its outcome is an input.
 */
module TokenEndpoint {
  import opened Wrappers

  datatype Exchange =
      /** `response.ok` and the JSON body parsed; `accessToken` is `None` when the field is absent or null. */
    | Granted(accessToken: Option<string>, expiresIn: int)
      /** `response.ok` is false; `body` is what `response.text()` resolved to. */
    | NotOk(status: nat, statusText: string, body: string)
      /** Something threw: `fetch` rejected, or the body could not be read or parsed. */
    | Fault(message: string)
}
