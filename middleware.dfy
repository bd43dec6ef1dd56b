/** `updateSession`, the per-request session refresh and routing step of the
    middleware. The identity provider's `getUser`, the newest-note lookup and
    the create-note POST are collaborators whose replies are parameters
    (`Backend`); the calls made to them are recorded, in order, as a list of
    `Call`s. */
module Middleware {
  import opened Wrappers
  import opened Urls
  import opened Cookies

  type UserId = string

  /** How the middleware treats a pathname. */
  datatype Route = AuthPage | AppRoot | Other

  /** Exact comparisons only: no prefix match, no trailing slash, no case
      folding. */
  function Classify(path: string): (r: Route)
    ensures r == AuthPage <==> path == "/login" || path == "/sign-up"
    ensures r == AppRoot <==> path == "/"
  {
    if path == "/login" || path == "/sign-up" then AuthPage
    else if path == "/" then AppRoot
    else Other
  }

  /** An id field of a JSON reply from the note API: missing, `null`, or a
      string. */
  datatype IdField = Undefined | Null | Text(s: string)

  /** JavaScript truthiness of an id field. */
  predicate Truthy(f: IdField) {
    f.Text? && f.s != ""
  }

  /** The string `searchParams.set` stores for an id field. */
  function AsParam(f: IdField): string {
    match f
    case Undefined => "undefined"
    case Null => "null"
    case Text(s) => s
  }

  /** A `fetch(...).then(res => res.json())` that either yields a body or
      rejects (network failure, a body that is not JSON, or a `null` body that
      cannot be destructured). */
  datatype Fetch<T> = Fetched(body: T) | FetchFailed

  /** What `getUser` yields: the user, if any, and the cookie batches the
      client delivered to `setAll` while refreshing the session. */
  datatype AuthReply = AuthReply(user: Option<UserId>, batches: seq<Batch>)

  /** The collaborators' replies for one request. */
  datatype Backend = Backend(
    auth: AuthReply,
    newest: UserId -> Fetch<IdField>,
    create: UserId -> Fetch<IdField>)

  /** The incoming request: its URL and its cookies. */
  datatype Request = Request(url: Url, cookies: Jar)

  /** A response: `NextResponse.next`, which forwards request cookies to
      rendering and sets cookies on the way back, or a redirect built fresh by
      `NextResponse.redirect`, which carries no cookies. */
  datatype Response = Next(forwarded: Jar, cookies: ResponseCookies) | Redirect(location: Url)

  /** The middleware either returns a response or rejects. */
  datatype Outcome = Returned(response: Response) | Threw

  datatype Call = GetUser | FetchNewest(user: UserId) | CreateNote(user: UserId)

  /** `!searchParams.get("noteId")` is false: a first `noteId` value exists
      and is not empty. */
  predicate HasNoteId(q: Query) {
    match Get(q, "noteId")
    case Some(v) => v != ""
    case None => false
  }

  /** The requests on which `getUser` is reached. */
  predicate NeedsUser(req: Request) {
    || Classify(req.url.path) == AuthPage
    || (Classify(req.url.path) == AppRoot && !HasNoteId(req.url.query))
  }

  /** `supabaseResponse` after `getUser` delivered its batches. */
  function Refreshed(jar: Jar, batches: seq<Batch>): Response {
    if batches == [] then Next(jar, map[])
    else Next(JarAfterAll(jar, batches), ResponseAfter(batches[|batches| - 1]))
  }

  /** The redirect target of the root branch: the incoming URL, cloned, with
      `noteId` set. */
  function WithNoteId(url: Url, id: string): Url {
    Url(url.origin, url.path, Set(url.query, "noteId", id))
  }

  /** The root branch once `getUser` has returned user `u`: one newest-note
      lookup, then a create only when the lookup found nothing. */
  function ResolveNote(url: Url, u: UserId, be: Backend): (Outcome, seq<Call>) {
    match be.newest(u)
    case FetchFailed => (Threw, [GetUser, FetchNewest(u)])
    case Fetched(found) =>
      if Truthy(found) then
        (Returned(Redirect(WithNoteId(url, found.s))), [GetUser, FetchNewest(u)])
      else
        match be.create(u)
        case FetchFailed => (Threw, [GetUser, FetchNewest(u), CreateNote(u)])
        case Fetched(created) =>
          (Returned(Redirect(WithNoteId(url, AsParam(created)))), [GetUser, FetchNewest(u), CreateNote(u)])
  }

  /** The whole of `updateSession` for one request: the outcome and the calls
      made, in order. `baseOrigin` is the origin of the configured base URL. */
  function Session(req: Request, baseOrigin: string, be: Backend): (Outcome, seq<Call>) {
    var passthrough := Returned(Refreshed(req.cookies, be.auth.batches));
    match Classify(req.url.path)
    case AuthPage =>
      if be.auth.user.Some? then (Returned(Redirect(Url(baseOrigin, "/", []))), [GetUser])
      else (passthrough, [GetUser])
    case AppRoot =>
      if HasNoteId(req.url.query) then (Returned(Next(req.cookies, map[])), [])
      else if be.auth.user.None? then (passthrough, [GetUser])
      else ResolveNote(req.url, be.auth.user.value, be)
    case Other => (Returned(Next(req.cookies, map[])), [])
  }

  /** `supabase.auth.getUser()`: the provider's reply, each of whose cookie
      batches reaches the `setAll` callback in order. */
  method GetUserCall(cookies: SessionCookies, reply: AuthReply) returns (user: Option<UserId>)
    modifies cookies
    ensures user == reply.user
    ensures Next(cookies.forwarded, cookies.responseCookies) ==
      if reply.batches == [] then old(Next(cookies.forwarded, cookies.responseCookies))
      else Refreshed(old(cookies.jar), reply.batches)
    ensures cookies.jar == JarAfterAll(old(cookies.jar), reply.batches)
  {
    var i := 0;
    while i < |reply.batches|
      invariant 0 <= i <= |reply.batches|
      invariant cookies.jar == JarAfterAll(old(cookies.jar), reply.batches[..i])
      invariant Next(cookies.forwarded, cookies.responseCookies) ==
        if i == 0 then old(Next(cookies.forwarded, cookies.responseCookies))
        else Refreshed(old(cookies.jar), reply.batches[..i])
    {
      assert reply.batches[..i + 1][..i] == reply.batches[..i];
      cookies.SetAll(reply.batches[i]);
      i := i + 1;
    }
    assert reply.batches[..i] == reply.batches;
    user := reply.user;
  }

  /** `updateSession`. */
  method UpdateSession(req: Request, baseOrigin: string, be: Backend) returns (out: Outcome, calls: seq<Call>)
    ensures (out, calls) == Session(req, baseOrigin, be)
  {
    var cookies := new SessionCookies(req.cookies);
    calls := [];
    var path := req.url.path;
    var isAuthRoute := path == "/login" || path == "/sign-up";
    if isAuthRoute {
      var user := GetUserCall(cookies, be.auth);
      assert Next(cookies.forwarded, cookies.responseCookies) == Refreshed(req.cookies, be.auth.batches);
      calls := [GetUser];
      if user.Some? {
        assert Classify(path) == AuthPage;
        return Returned(Redirect(Url(baseOrigin, "/", []))), calls;
      }
    }
    if !HasNoteId(req.url.query) && path == "/" {
      assert Classify(path) == AppRoot && calls == [];
      var user := GetUserCall(cookies, be.auth);
      assert Next(cookies.forwarded, cookies.responseCookies) == Refreshed(req.cookies, be.auth.batches);
      calls := calls + [GetUser];
      if user.Some? {
        var u := user.value;
        var newest := be.newest(u);
        calls := calls + [FetchNewest(u)];
        assert calls == [GetUser, FetchNewest(u)];
        if newest.FetchFailed? {
          return Threw, calls;
        }
        if Truthy(newest.body) {
          return Returned(Redirect(WithNoteId(req.url, newest.body.s))), calls;
        }
        var created := be.create(u);
        calls := calls + [CreateNote(u)];
        assert calls == [GetUser, FetchNewest(u), CreateNote(u)];
        if created.FetchFailed? {
          return Threw, calls;
        }
        return Returned(Redirect(WithNoteId(req.url, AsParam(created.body)))), calls;
      }
    }
    out := Returned(Next(cookies.forwarded, cookies.responseCookies));
    if !isAuthRoute && !HasNoteId(req.url.query) && path == "/" {
      assert calls == [GetUser] && be.auth.user.None?;
    }
  }
}
