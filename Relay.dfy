/** The routes of the relay: for each browser request, the one call it makes to the
    upstream to-do API and what it answers once that call settles. The network itself is a
    parameter: a function from the request sent to the result received. */
module Relay {
  import opened JsValues
  import opened Http
  import SoftDeleteFilter
  import Session

  const TODO_API_URL := "https://hunter-todo-api.herokuapp.com"
  const ItemsUrl := TODO_API_URL + "/todo-item"
  const ListView := "individual-list"

  /** A browser request, with the form fields each route reads (`undefined` is None). */
  datatype Op =
    | Register(newUser: Option<string>)      // POST /register
    | Authenticate(logUser: Option<string>)  // POST /auth
    | ListItems                              // GET /all-items
    | InsertItem(newText: Option<string>)    // POST /insert-new-item
    | CompleteItem(inputid: Option<string>)  // POST /update-item
    | DeleteItem(buttonid: Option<string>)   // POST /delete-item
    | LogOut                                 // POST /log-out
  {
    /** The routes that act on to-do items and so carry the session. */
    predicate IsItemOp() {
      ListItems? || InsertItem? || CompleteItem? || DeleteItem?
    }
  }

  /** A JSON body `{key: field}`; serialisation drops a member whose value is `undefined`. */
  function FormBody(key: string, field: Option<string>): Json {
    JObject(if field.Some? then map[key := JString(field.value)] else map[])
  }

  /** The URL of one item: the form field is concatenated as JavaScript would. */
  function ItemUrl(id: Option<string>): string {
    ItemsUrl + "/" + FormText(id)
  }

  /** The headers of an item call: the request's cookie, passed on verbatim. */
  function Bearer(cookie: Option<string>): map<string, Option<string>> {
    map["Authorization" := cookie]
  }

  /** The upstream call a route makes, given the `Authentication` cookie of the request;
      None for log-out, which is handled locally. */
  function UpstreamRequest(op: Op, cookie: Option<string>): (r: Option<Request>)
    ensures r.None? <==> op.LogOut?
    ensures r.Some? ==> TODO_API_URL <= r.value.url
    ensures r.Some? && op.IsItemOp() ==>
      "Authorization" in r.value.headers && r.value.headers["Authorization"] == cookie
    ensures r.Some? && !op.IsItemOp() ==> r.value.headers == map[]
    ensures r.Some? && r.value.verb == Get <==> op.ListItems?
  {
    match op
    case Register(newUser) =>
      Some(Request(Post, TODO_API_URL + "/user", Some(FormBody("username", newUser)), map[]))
    case Authenticate(logUser) =>
      Some(Request(Post, TODO_API_URL + "/auth", Some(FormBody("username", logUser)), map[]))
    case ListItems =>
      Some(Request(Get, ItemsUrl, None, Bearer(cookie)))
    case InsertItem(newText) =>
      Some(Request(Post, ItemsUrl, Some(FormBody("content", newText)), Bearer(cookie)))
    case CompleteItem(inputid) =>
      Some(Request(Put, ItemUrl(inputid), Some(JObject(map["completed" := JBool(true)])), Bearer(cookie)))
    case DeleteItem(buttonid) =>
      Some(Request(Delete, ItemUrl(buttonid), Some(JObject(map["deleted" := JBool(true)])), Bearer(cookie)))
    case LogOut => None
  }

  /** What a route answers once its upstream call has settled with `result` (log-out makes
      no call and ignores it). Rejections are swallowed: only the list page still renders. */
  function Outcome(op: Op, cookie: Option<string>, result: Upstream): (r: Reply)
    ensures op.LogOut? ==> r == Reply(Session.ClearToken, Redirect("/"))
    ensures !op.LogOut? && result.Err? ==>
      r.cookie.Unchanged? && (if op.ListItems? then r.response == Render(ListView, None) else r.response.NoResponse?)
    ensures !r.cookie.Unchanged? ==> op.LogOut? || (op.Authenticate? && cookie.None? && result.Ok?)
    ensures r.response.Redirect? && !op.LogOut? ==>
      result.Ok? && (op.Register? || op.InsertItem? || op.DeleteItem?)
    ensures op.CompleteItem? ==> r == Silent
    ensures op.Authenticate? ==> r == Session.AuthReply(cookie, result)
    ensures result.Ok? && op.Register? ==> r == Reply(Unchanged, Redirect("/successful"))
    ensures result.Ok? && (op.InsertItem? || op.DeleteItem?) ==> r == Reply(Unchanged, Redirect("/all-items"))
    ensures op.ListItems? && result.Ok? ==> r.response == Render(ListView, SoftDeleteFilter.Transformed(result.data))
    ensures op.ListItems? ==>
      r.response.Render? && r.response.view == ListView &&
      (r.response.items.Some? ==> forall x :: x in r.response.items.value ==> !SoftDeleteFilter.IsSoftDeleted(x))
  {
    match op
    case Register(_) => if result.Ok? then Reply(Unchanged, Redirect("/successful")) else Silent
    case Authenticate(_) => Session.AuthReply(cookie, result)
    case ListItems =>
      var items := if result.Ok? then SoftDeleteFilter.Transformed(result.data) else None;
      Reply(Unchanged, Render(ListView, items))
    case InsertItem(_) => if result.Ok? then Reply(Unchanged, Redirect("/all-items")) else Silent
    case CompleteItem(_) => Silent
    case DeleteItem(_) => if result.Ok? then Reply(Unchanged, Redirect("/all-items")) else Silent
    case LogOut => Reply(Session.ClearToken, Redirect("/"))
  }

  /** One request handled end to end: the upstream calls made, and the reply. */
  datatype Exchange = Exchange(calls: seq<Request>, reply: Reply)

  function Handle(op: Op, cookie: Option<string>, upstream: Request -> Upstream): (x: Exchange)
    ensures |x.calls| == if op.LogOut? then 0 else 1
    ensures forall c :: c in x.calls ==> Some(c) == UpstreamRequest(op, cookie)
    ensures op.LogOut? ==> x.reply == Outcome(op, cookie, Err)
    ensures !op.LogOut? ==> x.reply == Outcome(op, cookie, upstream(x.calls[0]))
  {
    match UpstreamRequest(op, cookie)
    case None => Exchange([], Outcome(op, cookie, Err))
    case Some(request) => Exchange([request], Outcome(op, cookie, upstream(request)))
  }

  /** Log-out answers the same whatever the network would do: it clears the session cookie,
      redirects home and calls nothing. */
  lemma LogOutIsLocal(cookie: Option<string>, net1: Request -> Upstream, net2: Request -> Upstream)
    ensures Handle(LogOut, cookie, net1) == Handle(LogOut, cookie, net2)
    ensures Handle(LogOut, cookie, net1) == Exchange([], Reply(Session.ClearToken, Redirect("/")))
  {
  }

  /** After log-out the client holds no session, so the next successful login issues a
      fresh cookie. */
  lemma LogOutStartsFreshSession(jar: Option<string>, cookie: Option<string>,
                                 upstream: Request -> Upstream, logins: seq<Upstream>)
    ensures Session.ClientCookie(jar, Handle(LogOut, cookie, upstream).reply.cookie) == None
    ensures Session.LoginSeries(Session.ClientCookie(jar, Handle(LogOut, cookie, upstream).reply.cookie), logins)
            == Session.FirstIssued(logins)
  {
    Session.FirstSessionWins(None, logins);
  }

  /** Completing and deleting address the item named by the form field: the id's JavaScript
      text is read back from the URL, so two item URLs are equal iff those texts are. A
      missing id becomes "undefined" and so addresses the same URL as that literal id. */
  lemma ItemUrlNamesItem(a: Option<string>, b: Option<string>)
    ensures ItemUrl(a)[|ItemsUrl| + 1..] == FormText(a)
    ensures ItemUrl(a) == ItemUrl(b) <==> FormText(a) == FormText(b)
    ensures ItemUrl(None) == ItemUrl(Some("undefined"))
  {
  }

  /** The call each route makes: register and login post `{username}` to `/user` and
      `/auth`; the item routes target the item collection or one item of it, and update and
      delete send only the flag their route names. */
  lemma CallTargets(op: Op, cookie: Option<string>)
    requires !op.LogOut?
    ensures var r := UpstreamRequest(op, cookie).value;
      && (op.Register? ==> r == Request(Post, TODO_API_URL + "/user", Some(FormBody("username", op.newUser)), map[]))
      && (op.Authenticate? ==>
            r == Request(Post, TODO_API_URL + "/auth", Some(FormBody("username", op.logUser)), map[]))
      && (op.ListItems? ==> r == Request(Get, ItemsUrl, None, map["Authorization" := cookie]))
      && (op.InsertItem? ==>
            r == Request(Post, ItemsUrl, Some(FormBody("content", op.newText)), map["Authorization" := cookie]))
      && (op.CompleteItem? ==>
            r == Request(Put, ItemUrl(op.inputid), Some(JObject(map["completed" := JBool(true)])),
                         map["Authorization" := cookie]))
      && (op.DeleteItem? ==>
            r == Request(Delete, ItemUrl(op.buttonid), Some(JObject(map["deleted" := JBool(true)])),
                         map["Authorization" := cookie]))
  {
  }

  /** Scenario: a client without a cookie logs in as "alice", the upstream answers with token
      "tok123"; the reply sets `Authentication=tok123` and renders the authenticated view. */
  lemma LoginWithoutCookie()
    ensures var x := Handle(Authenticate(Some("alice")), None,
                            _ => Ok(JObject(map["token" := JString("tok123")])));
      && x.calls == [Request(Post, TODO_API_URL + "/auth", Some(JObject(map["username" := JString("alice")])), map[])]
      && x.reply == Reply(SetCookieHeader("Authentication=tok123"), Render("authenticate", None))
  {
  }

  /** Scenario: with cookie "tok123" the list call carries that token, and of the two records
      returned only the one not marked deleted is rendered. */
  lemma ListHidesDeleted()
    ensures
      var milk := JObject(map["id" := JNumber("1"), "content" := JString("milk"), "deleted" := JBool(false)]);
      var eggs := JObject(map["id" := JNumber("2"), "content" := JString("eggs"), "deleted" := JBool(true)]);
      var x := Handle(ListItems, Some("tok123"), _ => Ok(JArray([milk, eggs])));
      && x.calls == [Request(Get, ItemsUrl, None, map["Authorization" := Some("tok123")])]
      && x.reply == Reply(Unchanged, Render(ListView, Some([milk])))
  {
    var milk := JObject(map["id" := JNumber("1"), "content" := JString("milk"), "deleted" := JBool(false)]);
    var eggs := JObject(map["id" := JNumber("2"), "content" := JString("eggs"), "deleted" := JBool(true)]);
    assert [milk, eggs][..1] == [milk];
    assert [milk][..0] == [];
    assert !SoftDeleteFilter.IsSoftDeleted(milk) && SoftDeleteFilter.IsSoftDeleted(eggs);
    assert SoftDeleteFilter.Kept([milk]) == [milk];
    assert SoftDeleteFilter.Kept([milk, eggs]) == [milk];
  }

  /** Scenario: when the list call fails the page renders with no items and no error. */
  lemma ListFailureRendersEmpty(cookie: Option<string>)
    ensures Handle(ListItems, cookie, _ => Err).reply == Reply(Unchanged, Render(ListView, None))
  {
  }

  /** Scenario: deleting item 5 sends `DELETE /todo-item/5` with `{deleted: true}` and the
      session token, then redirects to the list. */
  lemma DeleteItemFive(token: string)
    ensures var x := Handle(DeleteItem(Some("5")), Some(token), _ => Ok(JObject(map[])));
      && x.calls == [Request(Delete, TODO_API_URL + "/todo-item/5",
                             Some(JObject(map["deleted" := JBool(true)])),
                             map["Authorization" := Some(token)])]
      && x.reply == Reply(Unchanged, Redirect("/all-items"))
  {
    assert ItemUrl(Some("5")) == TODO_API_URL + "/todo-item/5";
  }
}
