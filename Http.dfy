/** What crosses the relay's two boundaries: the request it sends to the upstream to-do
    API, the upstream's answer, and what it sends back to the browser. */
module Http {
  import opened JsValues

  datatype Method = Get | Post | Put | Delete

  /** One outbound call. A header whose value is `undefined` is kept, with value None. */
  datatype Request = Request(
    verb: Method,
    url: string,
    body: Option<Json>,
    headers: map<string, Option<string>>)

  /** The upstream call as axios reports it: resolved with the response data (already
      parsed), or rejected (network failure, non-2xx status, a body that does not parse).
      An exception thrown by the list route's own `transformResponse` hook on parsed data is
      modelled by that route, not here. */
  datatype Upstream = Ok(data: Json) | Err

  /** The cookie side effect on the browser response. */
  datatype CookieEffect =
    | Unchanged
    | SetCookieHeader(header: string)  // res.header('set-cookie', header)
    | ClearCookie(name: string)        // res.clearCookie(name)

  /** What the browser receives. `NoResponse` means the handler never answers. */
  datatype Response =
    | NoResponse
    | Render(view: string, items: Option<seq<Json>>)
    | Redirect(location: string)

  datatype Reply = Reply(cookie: CookieEffect, response: Response)

  const Silent := Reply(Unchanged, NoResponse)
}
