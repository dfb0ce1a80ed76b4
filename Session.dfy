/** The session held in the `Authentication` cookie: the decision the `/auth` handler takes
    after a successful upstream login, and a client that stores the cookie it is given and
    sends it back, so that the first session's survival can be stated across logins. */
module Session {
  import opened JsValues
  import opened Http

  const CookieName := "Authentication"
  const AuthenticateView := "authenticate"

  /** Ending the session: `res.clearCookie("Authentication")`. */
  const ClearToken := ClearCookie(CookieName)

  /** The text `${response.data.token}` yields, or None when reading `token` throws because
      the data is null. Data without a `token` member yields "undefined". */
  function AuthToken(data: Json): Option<string> {
    match data
    case JNull => None
    case JObject(fields) => Some(if "token" in fields then TemplateText(fields["token"]) else "undefined")
    case JBool(_) => Some("undefined")
    case JNumber(_) => Some("undefined")
    case JString(_) => Some("undefined")
    case JArray(_) => Some("undefined")
  }

  /** Node's check on a header value (`res.header` throws otherwise): every character is a
      tab or lies in 0x20-0x7E or 0x80-0xFF. */
  predicate HeaderSafe(value: string) {
    forall i :: 0 <= i < |value| ==>
      value[i] == '\t' || (' ' <= value[i] <= '~') || ('\U{80}' <= value[i] <= '\U{FF}')
  }

  /** What `/auth` sends back, given the `Authentication` cookie of the request and the
      upstream login result. With a cookie present the handler only logs and renders, never
      reading the response data. Without one it reads the token and sets the header. A
      rejected call lands in the catch handler, which only logs, and so does an exception
      thrown while reading the token or setting the header. */
  function AuthReply(cookie: Option<string>, result: Upstream): (r: Reply)
    ensures r.cookie.SetCookieHeader? <==>
      cookie.None? && result.Ok? && AuthToken(result.data).Some?
      && HeaderSafe(CookieName + "=" + AuthToken(result.data).value)
    ensures r.cookie.SetCookieHeader? ==>
      r.cookie.header == CookieName + "=" + AuthToken(result.data).value
    ensures !r.cookie.ClearCookie?
    ensures r.response.Render? <==>
      result.Ok? && (cookie.Some? ||
        (AuthToken(result.data).Some? && HeaderSafe(CookieName + "=" + AuthToken(result.data).value)))
    ensures r.response.Render? ==> r.response == Render(AuthenticateView, None)
    ensures !r.response.Render? ==> r == Silent
    ensures cookie.None? && result.Ok? && result.data.JObject? && "token" in result.data.fields
            && result.data.fields["token"].JString?
            && HeaderSafe(CookieName + "=" + result.data.fields["token"].s) ==>
      r == Reply(SetCookieHeader(CookieName + "=" + result.data.fields["token"].s), Render(AuthenticateView, None))
  {
    match result
    case Err => Silent
    case Ok(data) =>
      if cookie.Some? then Reply(Unchanged, Render(AuthenticateView, None))
      else
        match AuthToken(data)
        case None => Silent
        case Some(token) =>
          var header := CookieName + "=" + token;
          if HeaderSafe(header) then Reply(SetCookieHeader(header), Render(AuthenticateView, None))
          else Silent
  }

  /** With a cookie present, login renders whatever the upstream sent, even a null body; a
      token that cannot be sent in a header makes `res.header` throw, so nothing is set or
      rendered. */
  lemma AuthReplyExamples()
    ensures AuthReply(Some("abc"), Ok(JNull)) == Reply(Unchanged, Render(AuthenticateView, None))
    ensures AuthReply(None, Ok(JNull)) == Silent
    ensures AuthReply(None, Ok(JObject(map["token" := JString("a\nb")]))) == Silent
  {
    assert !HeaderSafe(CookieName + "=" + "a\nb") by {
      assert (CookieName + "=" + "a\nb")[16] == '\n';
    }
  }

  /** The text of `s` before the first `c`; all of `s` when `c` does not occur. */
  function Before(s: string, c: char): string {
    if s == [] then []
    else if s[0] == c then []
    else [s[0]] + Before(s[1..], c)
  }

  /** The text of `s` after the first `c`; empty when `c` does not occur. */
  function After(s: string, c: char): string {
    if s == [] then []
    else if s[0] == c then s[1..]
    else After(s[1..], c)
  }

  /** How the client reads a `set-cookie` header (RFC 6265 section 5.2, without the
      trimming of white space and without attributes): the pair is the text before the
      first ';', its name the part before the first '=', its value the rest. A pair without
      '=' is ignored. */
  function ParseSetCookie(header: string): Option<(string, string)> {
    var pair := Before(header, ';');
    if '=' in pair then Some((Before(pair, '='), After(pair, '='))) else None
  }

  /** The `Authentication` cookie the client holds after a reply with the given effect. */
  function ClientCookie(jar: Option<string>, effect: CookieEffect): Option<string> {
    match effect
    case Unchanged => jar
    case SetCookieHeader(header) =>
      (match ParseSetCookie(header)
       case Some((name, value)) => if name == CookieName then Some(value) else jar
       case None => jar)
    case ClearCookie(name) => if name == CookieName then None else jar
  }

  /** The cookie after a series of logins, each request carrying the cookie held so far. */
  function LoginSeries(jar: Option<string>, results: seq<Upstream>): Option<string>
    decreases |results|
  {
    if results == [] then jar
    else LoginSeries(ClientCookie(jar, AuthReply(jar, results[0]).cookie), results[1..])
  }

  /** The cookie value issued by the first login of the series whose token can be sent in
      a header. */
  function FirstIssued(results: seq<Upstream>): Option<string>
    decreases |results|
  {
    if results == [] then None
    else if results[0].Ok? && AuthToken(results[0].data).Some?
            && HeaderSafe(CookieName + "=" + AuthToken(results[0].data).value) then
      Some(Before(AuthToken(results[0].data).value, ';'))
    else FirstIssued(results[1..])
  }

  lemma {:induction false} BeforeAfterOfPrefix(p: string, c: char, t: string)
    requires c !in p
    ensures Before(p + [c] + t, c) == p
    ensures After(p + [c] + t, c) == t
  {
    if p != [] {
      assert (p + [c] + t)[1..] == p[1..] + [c] + t;
      BeforeAfterOfPrefix(p[1..], c, t);
    }
  }

  lemma {:induction false} BeforeOfConcat(p: string, c: char, t: string)
    requires c !in p
    ensures Before(p + t, c) == p + Before(t, c)
  {
    if p != [] {
      assert (p + t)[1..] == p[1..] + t;
      BeforeOfConcat(p[1..], c, t);
    } else {
      assert p + t == t;
    }
  }

  lemma {:induction false} BeforeBounds(s: string, c: char)
    ensures c !in Before(s, c)
    ensures c !in s ==> Before(s, c) == s
  {
    if s != [] {
      BeforeBounds(s[1..], c);
      if c !in s {
        assert s == [s[0]] + s[1..];
      }
    }
  }

  /** The header `/auth` emits is read back by the client as the cookie `Authentication`
      whose value is the token up to its first ';' — the whole token when it has none. */
  lemma SetCookieRoundTrip(token: string)
    ensures ParseSetCookie(CookieName + "=" + token) == Some((CookieName, Before(token, ';')))
    ensures ';' !in token ==> Before(token, ';') == token
  {
    var header := CookieName + "=" + token;
    BeforeOfConcat(CookieName + "=", ';', token);
    var pair := Before(header, ';');
    assert pair == CookieName + "=" + Before(token, ';');
    assert pair == CookieName + ['='] + Before(token, ';');
    BeforeAfterOfPrefix(CookieName, '=', Before(token, ';'));
    assert pair[|CookieName|] == '=';
    BeforeBounds(token, ';');
  }

  /** First session wins: once the client holds a cookie, no later login replaces it; a
      client without one ends up with the cookie of the first login that succeeds. */
  lemma {:induction false} FirstSessionWins(jar: Option<string>, results: seq<Upstream>)
    ensures jar.Some? ==> LoginSeries(jar, results) == jar
    ensures jar.None? ==> LoginSeries(jar, results) == FirstIssued(results)
    decreases |results|
  {
    if results != [] {
      var r := AuthReply(jar, results[0]);
      if r.cookie.SetCookieHeader? {
        var token := AuthToken(results[0].data).value;
        SetCookieRoundTrip(token);
        assert ClientCookie(jar, r.cookie) == Some(Before(token, ';'));
        FirstSessionWins(Some(Before(token, ';')), results[1..]);
      } else {
        assert ClientCookie(jar, r.cookie) == jar;
        FirstSessionWins(jar, results[1..]);
      }
    }
  }
}
