/** What `updateSession` promises, stated over its specification `Session`
    (which `Middleware.UpdateSession` is proved to compute). */
module MiddlewareProperties {
  import opened Wrappers
  import opened Urls
  import opened Cookies
  import opened Middleware

  /** The calls a request may make, in the only order they can happen. */
  function AllowedCalls(be: Backend): seq<Call> {
    match be.auth.user
    case Some(u) => [GetUser, FetchNewest(u), CreateNote(u)]
    case None => [GetUser]
  }

  /** Matching is exact: a trailing slash or a different case is an ordinary
      path. */
  lemma ClassifyIsExact()
    ensures Classify("/login") == AuthPage && Classify("/sign-up") == AuthPage
    ensures Classify("/") == AppRoot
    ensures Classify("/login/") == Other && Classify("/Login") == Other
    ensures Classify("/sign-up/") == Other && Classify("") == Other
  {
  }

  /** `getUser` is reached exactly on an auth page, or on `/` without a
      truthy `noteId`; the calls of a request are a prefix of getUser, one
      lookup, one create, for the user `getUser` returned. */
  lemma CallsFollowOrder(req: Request, baseOrigin: string, be: Backend)
    ensures GetUser in Session(req, baseOrigin, be).1 <==> NeedsUser(req)
    ensures Session(req, baseOrigin, be).1 <= AllowedCalls(be)
  {
  }

  /** No call is made twice in one request. */
  lemma CallsAtMostOnce(req: Request, baseOrigin: string, be: Backend)
    ensures var calls := Session(req, baseOrigin, be).1;
      forall i, j :: 0 <= i < j < |calls| ==> calls[i] != calls[j]
  {
    var calls := Session(req, baseOrigin, be).1;
    var all := AllowedCalls(be);
    CallsFollowOrder(req, baseOrigin, be);
    assert forall i, j :: 0 <= i < j < |all| ==> all[i] != all[j];
    assert forall i :: 0 <= i < |calls| ==> calls[i] == all[i];
  }

  /** Any other path, and `/` with a truthy `noteId`, calls nothing and
      passes the request through with its cookies untouched. */
  lemma NoCollaboratorWithoutNeed(req: Request, baseOrigin: string, be: Backend)
    requires !NeedsUser(req)
    ensures Session(req, baseOrigin, be) == (Returned(Next(req.cookies, map[])), [])
  {
  }

  /** On `/login` and `/sign-up`: a signed-in user is sent to `/` on the base
      origin with an empty query; anyone else passes through with the
      refreshed cookies. */
  lemma AuthPageDecision(req: Request, baseOrigin: string, be: Backend)
    requires Classify(req.url.path) == AuthPage
    ensures Session(req, baseOrigin, be).1 == [GetUser]
    ensures be.auth.user.Some? ==>
      Session(req, baseOrigin, be).0 == Returned(Redirect(Url(baseOrigin, "/", [])))
    ensures be.auth.user.None? ==>
      Session(req, baseOrigin, be).0 == Returned(Refreshed(req.cookies, be.auth.batches))
  {
  }

  /** A redirect target carries exactly one `noteId`, with value `id`, at
      the same origin and path, every other parameter kept in order. */
  predicate RedirectsWithNoteId(req: Request, out: Outcome, id: string) {
    && out.Returned? && out.response.Redirect?
    && out.response.location.origin == req.url.origin
    && out.response.location.path == req.url.path
    && Values(out.response.location.query, "noteId") == [id]
    && Without(out.response.location.query, "noteId") == Without(req.url.query, "noteId")
  }

  /** A signed-in user on `/` without a truthy `noteId` whose lookup finds a
      note is sent to that note; nothing is created. */
  lemma NewestNoteReused(req: Request, baseOrigin: string, be: Backend, u: UserId, id: string)
    requires Classify(req.url.path) == AppRoot && !HasNoteId(req.url.query)
    requires be.auth.user == Some(u) && be.newest(u) == Fetched(Text(id)) && id != ""
    ensures Session(req, baseOrigin, be).1 == [GetUser, FetchNewest(u)]
    ensures RedirectsWithNoteId(req, Session(req, baseOrigin, be).0, id)
  {
    SetLeavesOneValue(req.url.query, "noteId", id);
    SetKeepsOthers(req.url.query, "noteId", id);
  }

  /** When the lookup finds nothing, exactly one note is created and the
      user is sent to it (the id as `searchParams.set` stringifies it). */
  lemma NoteCreatedWhenNoneFound(req: Request, baseOrigin: string, be: Backend, u: UserId, found: IdField, created: IdField)
    requires Classify(req.url.path) == AppRoot && !HasNoteId(req.url.query)
    requires be.auth.user == Some(u) && be.newest(u) == Fetched(found) && !Truthy(found)
    requires be.create(u) == Fetched(created)
    ensures Session(req, baseOrigin, be).1 == [GetUser, FetchNewest(u), CreateNote(u)]
    ensures RedirectsWithNoteId(req, Session(req, baseOrigin, be).0, AsParam(created))
  {
    SetLeavesOneValue(req.url.query, "noteId", AsParam(created));
    SetKeepsOthers(req.url.query, "noteId", AsParam(created));
  }

  /** A create is issued only for the signed-in user on `/` without a truthy
      `noteId`, after a lookup that succeeded and found nothing. */
  lemma CreateOnlyAfterEmptyLookup(req: Request, baseOrigin: string, be: Backend, u: UserId)
    requires CreateNote(u) in Session(req, baseOrigin, be).1
    ensures Classify(req.url.path) == AppRoot && !HasNoteId(req.url.query)
    ensures be.auth.user == Some(u)
    ensures be.newest(u).Fetched? && !Truthy(be.newest(u).body)
  {
    CallsFollowOrder(req, baseOrigin, be);
  }

  /** There is no fallback: a lookup or a create that fails makes the
      middleware reject. */
  lemma FailedFetchRejects(req: Request, baseOrigin: string, be: Backend)
    requires Classify(req.url.path) == AppRoot && !HasNoteId(req.url.query)
    requires be.auth.user.Some?
    requires var u := be.auth.user.value;
      be.newest(u).FetchFailed? || (be.newest(u).Fetched? && !Truthy(be.newest(u).body) && be.create(u).FetchFailed?)
    ensures Session(req, baseOrigin, be).0 == Threw
  {
  }

  /** The pass-through response forwards every cookie the refresh wrote, each
      with its last value, and sets exactly the entries of the last batch. */
  lemma RefreshedCarriesLatestBatch(jar: Jar, batches: seq<Batch>)
    requires batches != []
    ensures Refreshed(jar, batches).forwarded == JarAfter(jar, Concat(batches))
    ensures Refreshed(jar, batches).cookies.Keys == Names(batches[|batches| - 1])
    ensures forall n :: n in Refreshed(jar, batches).cookies ==>
      Some(Refreshed(jar, batches).cookies[n]) == LastEntry(batches[|batches| - 1], n)
  {
    JarAfterAllIsLastValue(jar, batches);
  }

  /** Only the pass-through carries cookies: it is `supabaseResponse`, which
      holds the refresh's cookies exactly when `getUser` ran; a redirect is
      the same whatever cookies the refresh wrote. */
  lemma OnlyPassthroughCarriesCookies(req: Request, baseOrigin: string, be: Backend)
    ensures var (out, calls) := Session(req, baseOrigin, be);
      out.Returned? && out.response.Next? ==>
        out.response == if GetUser in calls then Refreshed(req.cookies, be.auth.batches) else Next(req.cookies, map[])
    ensures var out := Session(req, baseOrigin, be).0;
      out.Returned? && out.response.Redirect? ==>
        Session(req, baseOrigin, be) == Session(req, baseOrigin, be.(auth := AuthReply(be.auth.user, [])))
  {
  }

  /** The create branch avoids sending the user back where they came from
      only when the created id is not the empty string. */
  predicate CreatesNonEmpty(be: Backend) {
    be.auth.user.Some? ==> be.create(be.auth.user.value) != Fetched(Text(""))
  }

  /** No redirect targets the path and query it came from. */
  lemma NoSelfRedirect(req: Request, baseOrigin: string, be: Backend)
    requires CreatesNonEmpty(be)
    ensures var out := Session(req, baseOrigin, be).0;
      out.Returned? && out.response.Redirect? ==>
        (out.response.location.path, out.response.location.query) != (req.url.path, req.url.query)
  {
    var out := Session(req, baseOrigin, be).0;
    if out.Returned? && out.response.Redirect? && Classify(req.url.path) == AppRoot {
      var u := be.auth.user.value;
      var id := if Truthy(be.newest(u).body) then be.newest(u).body.s else AsParam(be.create(u).body);
      assert id != "";
      SetLeavesOneValue(req.url.query, "noteId", id);
      assert HasNoteId(out.response.location.query);
    }
  }

  /** With an empty created id the redirect is a loop: `/?noteId=` is sent to
      itself. */
  lemma EmptyCreatedIdRedirectsToItself()
    ensures var req := Request(Url("https://notes.example", "/", [Param("noteId", "")]), map[]);
      var be := Backend(AuthReply(Some("u1"), []), u => Fetched(Null), u => Fetched(Text("")));
      Session(req, "https://notes.example", be).0 == Returned(Redirect(req.url))
  {
    var q := [Param("noteId", "")];
    assert Set(q, "noteId", "") == q;
  }

  /** Where a redirect from `/` leads: back to `/` with a truthy `noteId`. */
  lemma NoteRedirectIsFinal(req: Request, baseOrigin: string, be: Backend, next: Request, be2: Backend)
    requires CreatesNonEmpty(be)
    requires Classify(req.url.path) == AppRoot
    requires Session(req, baseOrigin, be).0 == Returned(Redirect(next.url))
    ensures Session(next, baseOrigin, be2) == (Returned(Next(next.cookies, map[])), [])
  {
    var u := be.auth.user.value;
    var id := if Truthy(be.newest(u).body) then be.newest(u).body.s else AsParam(be.create(u).body);
    SetLeavesOneValue(req.url.query, "noteId", id);
  }

  /** Following the middleware's redirects never loops: whatever the
      collaborators answer on each hop, the third request at the latest
      passes through. */
  lemma RedirectsSettle(req: Request, baseOrigin: string, be1: Backend, jar2: Jar, be2: Backend, jar3: Jar, be3: Backend)
    requires CreatesNonEmpty(be1) && CreatesNonEmpty(be2)
    ensures match Session(req, baseOrigin, be1).0
      case Returned(Redirect(l1)) =>
        (match Session(Request(l1, jar2), baseOrigin, be2).0
         case Returned(Redirect(l2)) =>
           Session(Request(l2, jar3), baseOrigin, be3) == (Returned(Next(jar3, map[])), [])
         case _ => true)
      case _ => true
  {
    var out1 := Session(req, baseOrigin, be1).0;
    if out1.Returned? && out1.response.Redirect? {
      var l1 := out1.response.location;
      var req2 := Request(l1, jar2);
      var out2 := Session(req2, baseOrigin, be2).0;
      if Classify(req.url.path) == AppRoot {
        NoteRedirectIsFinal(req, baseOrigin, be1, req2, be2);
      } else if out2.Returned? && out2.response.Redirect? {
        assert l1 == Url(baseOrigin, "/", []);
        NoteRedirectIsFinal(req2, baseOrigin, be2, Request(out2.response.location, jar3), be3);
      }
    }
  }
}
