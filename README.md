# To-do list relay: a Dafny model

The relay is an Express server (`app.js`) that stands between a browser and an upstream
to-do-list REST API (`https://hunter-todo-api.herokuapp.com`). It turns form posts into
upstream calls. On every item call it forwards the session token that the browser holds in
the `Authentication` cookie. It hides soft-deleted records from the item list, and it
swallows upstream failures.

This project models the relay's deterministic core:

- **Soft-delete filter** (`SoftDeleteFilter.dfy`). This is the `transformResponse` hook of the
  `GET /todo-item` call. `TransformResponse` is the index loop of the source, proved against
  the specification function `Transformed`/`Kept`. The lemmas beside it state what the
  filter keeps, in which order, and when it is the identity.
- **Session** (`Session.dfy`). `AuthReply` is the decision the `/auth` handler takes after the
  upstream login settles. The module also models a client that stores the `set-cookie` header
  it receives and sends the cookie back. That client is used to state the first-session-wins
  policy across a series of logins.
- **Relay dispatch table** (`Relay.dfy`). `UpstreamRequest` gives the one upstream request each
  route builds (verb, URL, JSON body, headers). `Outcome` gives what the route answers for
  each upstream result: render, redirect, clear the cookie, or nothing. `Handle` is the
  whole exchange, with the network as a function parameter.
- **Port default** (`Config.dfy`).

`JsValues.dfy` holds the JavaScript values involved:
- parsed JSON;
- form fields that may be `undefined`;
- the string conversions of `+` and template literals.

`Http.dfy` holds the request and reply datatypes.

Modelling conventions:
- A JSON number is carried as the text JavaScript prints for it.
- A form field or cookie that is `undefined` is `None`.
- An upstream call is `Ok(data)` or `Err`. `Ok` carries the parsed response data. `Err` covers
  a rejected promise: a network failure, a non-2xx status, or a list body that `JSON.parse`
  rejects.
- Some exceptions are thrown on data that parsed. The model routes each one to the handler
  the source reaches:
  - `null.length` or `null.deleted` in the list route's `transformResponse` hook (app.js:117-121)
    makes the call reject. `SoftDeleteFilter.Transformed` gives `None` there, and the list
    renders with no items.
  - In `/auth` without a cookie (app.js:88-90), `null.token` or a header value that Node refuses
    (a character outside tab, 0x20-0x7E and 0x80-0xFF) throws inside the `then` handler. Control
    goes to the chained `catch`, which only logs.
- In `/auth` with a cookie already present (app.js:94-96), the handler logs and renders
  without reading the response data.
- A failed login renders nothing: the catch handler at app.js:99-101 only logs.
- Every item call sets `Authorization` to the cookie value, which is `undefined` when there is
  no cookie. The model keeps the header, with value `None`.

## Model

| member | source | states |
|---|---|---|
| `SoftDeleteFilter.TransformResponse` | app.js:115-126 | the index loop returns exactly the specification `Transformed`: the records that are not soft-deleted, or failure when the payload or one of its elements is null; every record returned has `deleted !== true` |
| `SoftDeleteFilter.Transformed` | app.js:115-126 | whenever the hook hands data on, none of its records has `deleted === true` |
| `SoftDeleteFilter.KeptSelectsInOrder` | app.js:118-123 | the output is the input records at the increasing list of positions whose record is not soft-deleted; each position is kept iff its record's `deleted` is not `true`; records are unchanged and keep their relative order |
| `SoftDeleteFilter.KeptMembership` | app.js:119-123 | a record is in the output iff it is in the input and is not soft-deleted |
| `SoftDeleteFilter.KeptBounds` | app.js:118-125 | the output is no longer than the input and is a sub-multiset of it; empty input gives empty output |
| `SoftDeleteFilter.KeptIsIdentityIff` | app.js:119-123 | the filter returns its input unchanged iff no record has `deleted === true` |
| `SoftDeleteFilter.KeptAppend` | app.js:119-123 | each record is judged on its own: filtering a concatenation is the concatenation of the filtered parts |
| `SoftDeleteFilter.KeptIdempotent` | app.js:119-123 | filtering an already filtered list changes nothing |
| `SoftDeleteFilter.TransformedOnArray` | app.js:117-125 | on an array payload the hook succeeds with the filtered records iff no element is null; an empty array gives an empty list |
| `SoftDeleteFilter.OnlyStrictTrueHides` | app.js:120 | a missing `deleted`, `false`, the string "true", the number 1 and `null` all keep the record (strict `!== true`) |
| `Session.AuthReply` | app.js:84-101 | after a successful login, `set-cookie: Authentication=<token>` is emitted iff the request had no `Authentication` cookie and the token can be read and sent in a header; a string token is sent verbatim; with a cookie present `authenticate` renders whatever the body; without one it renders iff the header was set; on upstream failure nothing is set or rendered; login never clears the cookie |
| `Session.AuthReplyExamples` | app.js:84-101 | with a cookie a null body still renders `authenticate`; without one a null body, or a token with a newline, gives no cookie and no render |
| `Session.SetCookieRoundTrip` | app.js:89 | the emitted header is read back by the client as cookie `Authentication` with the token as value (up to its first `;`) |
| `Session.FirstSessionWins` | app.js:86-97 | over any series of logins a cookie once held is never replaced; a client without one ends with the cookie of the first login that sets one |
| `Relay.UpstreamRequest` | app.js:62-206 | log-out is the only route without an upstream call; every call targets the API base URL; item routes send the request's `Authentication` cookie verbatim as `Authorization` and the others send no headers; only the list is a GET |
| `Relay.CallTargets` | app.js:62-189 | register posts `{username: newUser}` to `/user` and login `{username: logUser}` to `/auth`, without headers; the list GETs `/todo-item` and insert posts `{content: newText}` there, both with the cookie as `Authorization`; update PUTs `{completed: true}` to `/todo-item/<inputid>` and delete sends DELETE with `{deleted: true}` to `/todo-item/<buttonid>`, both with the cookie as `Authorization` and no other header |
| `Relay.ItemUrlNamesItem` | app.js:163 | the id's JavaScript text is read back from the item URL, so two item URLs are equal iff those texts are; a missing id addresses the same URL as the literal id "undefined" |
| `Relay.Outcome` | app.js:62-206 | on failure every route leaves the cookie alone and answers nothing, except the list, which renders `individual-list` with no items; only register, insert and delete redirect, and only on success; only login (without a cookie) and log-out touch the cookie; update never answers; login answers as `Session.AuthReply`; on success register redirects to `/successful` and insert and delete to `/all-items`; the list renders `individual-list` with the filtered payload (`Transformed`), never a soft-deleted record; log-out clears the cookie and redirects to `/` |
| `Relay.Handle` | app.js:62-206 | each route makes exactly one upstream call, the one `UpstreamRequest` builds, and answers with `Outcome` of that call's result; log-out makes none |
| `Relay.LogOutIsLocal` | app.js:201-206 | log-out answers identically whatever the network does: clear `Authentication`, redirect to `/`, no call |
| `Relay.LogOutStartsFreshSession` | app.js:201-206 | after log-out the client holds no cookie, so the next login that renders issues a fresh one |
| `Relay.LoginWithoutCookie` | app.js:79-102 | a client without a cookie logging in as "alice" with upstream token "tok123" posts `{username: "alice"}` to `/auth` and gets `set-cookie: Authentication=tok123` and the `authenticate` view |
| `Relay.ListHidesDeleted` | app.js:105-134 | with cookie "tok123", the list call carries `Authorization: tok123`; of the records milk (not deleted) and eggs (deleted) only milk is rendered |
| `Relay.ListFailureRendersEmpty` | app.js:131-133 | a failed list call renders `individual-list` with no items and no error |
| `Relay.DeleteItemFive` | app.js:179-198 | deleting item 5 sends `DELETE /todo-item/5` with `{deleted: true}` and the session token, then redirects to `/all-items` |
| `Config.ChoosePort` | app.js:208-211 | the port is 3000 iff `PORT` is unset or empty; any other value is used as given |

## Left out

- Express setup, middleware, static files and the Handlebars engine (app.js:4-23) are framework wiring.
- Only the view name and the `items` data of a render are modelled. View templates are not.
- The routes `/` (app.js:26-29), `/users` (app.js:35-45) and `/successful` (app.js:48-58) have no
  logic beyond forwarding data to a view.
- HTTP goes through axios, which is not modelled. The network is a function parameter of
  `Relay.Handle`. The source has no retries or timeouts.
- `console.log` calls, `app.listen` (app.js:214-216) and promise asynchrony are not modelled.
  Each request is one sequential step, and the relay holds no shared state.
- `JSON.parse` (app.js:117) is not modelled. The hook takes the parsed value, and a body that
  does not parse is `Err`. For `/auth`, axios's default transform leaves a body that does not
  parse as a string, which the model represents as `JString`.
- `SoftDeleteFilter.Elements`: an object payload with its own `length` member is treated as
  having no elements. JavaScript would index it as an array-like object.
- A string payload is walked by Dafny characters, not by UTF-16 code units.
- The token text uses JavaScript's default conversions. A token object with its own `toString`
  or `valueOf` member is not modelled.
- Cookie parsing on the relay side (cookie-parser's URI decoding and `j:` JSON cookies) is
  not modelled. The request cookie is the string the relay reads.
- The client's cookie handling ignores white-space trimming, cookie attributes, paths and
  expiry.
- A form field that the body parser turns into an array or an object is not modelled.
  Form fields are strings or `undefined`.
- What the upstream does with a request, for example whether repeating "complete item" is
  idempotent, is not modelled. The upstream API is not part of this model.
- How the HTTP client treats a header whose value is `undefined` is not modelled. A missing
  cookie is forwarded as an `Authorization` header with value `None`.
