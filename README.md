# next-notes middleware: a Dafny model

This project models the request-time session and routing step of the
next-notes application (`src/middleware.ts`), together with two small pure
helpers: the home page's `noteId` normalisation (`src/app/page.tsx`) and
`handleError` (`src/lib/utils.ts`).

For every request whose path passes the `config.matcher` pattern, the
middleware:

- builds a Supabase server client whose `setAll` callback writes refreshed
  cookies into the request jar and onto a rebuilt pass-through response
  (`supabaseResponse`);
- on `/login` and `/sign-up`, asks `getUser` and sends a signed-in user to
  `/`;
- on `/` without a truthy `noteId`, asks `getUser`. For a signed-in user it
  then looks up the newest note, creates one only if none was found, and
  redirects to the same URL with `noteId` set;
- passes everything else through with `supabaseResponse`.

Files:

- `urls.dfy` (`Urls`): the URL's search parameter list, with `get` and `set`
  as the WHATWG URL standard defines them.
- `matcher.dfy` (`Matcher`): the matcher pattern, read as an anchored
  JavaScript regular expression.
- `cookies.dfy` (`Cookies`): the cookie bridge. Class `SessionCookies`
  holds the request jar and the current `supabaseResponse`. Its `SetAll`
  runs the callback's two loops and is proved against a "last entry wins"
  specification.
- `middleware.dfy` (`Middleware`): the route classifier and `Session`, the
  specification of `updateSession` as a function. The collaborators' replies
  are given to it as a `Backend` value, and it returns the outcome together
  with the list of calls made. Method `UpdateSession` sequences those calls
  as the source does and is proved to compute `Session`.
- `properties.dfy` (`MiddlewareProperties`): what `updateSession` promises,
  as lemmas about `Session`.
- `page.dfy` (`HomePage`), `utils.dfy` (`Utils`), `wrappers.dfy`
  (`Wrappers`, an `Option` type).

Two choices of the code shape what happens on the unhappy paths:

- The three redirects are built fresh, so they carry none of the cookies
  that `getUser`'s refresh wrote. A redirect that kept the refreshed
  cookies would not leave the browser holding credentials the provider
  has already replaced. `OnlyPassthroughCarriesCookies` states what the
  code does.
- A failed lookup or create fetch is not caught, so the middleware rejects
  and the request fails. Catching it and passing the request through would
  land the user on `/` with no note selected instead. `FailedFetchRejects`
  states what the code does.

Two behaviours of the code as written are worth knowing:

- The dot of `favicon.ico` in the matcher is not escaped, so every path of
  the form `/favicon?ico` is skipped (`AssetsAreSkipped`).
- Redirects settle after at most two hops, but only while the create
  endpoint never returns an empty id. An empty id sends `/?noteId=` to
  itself (`EmptyCreatedIdRedirectsToItself`).

## Model

| member | source | states |
|---|---|---|
| `Matcher.Matches` | src/middleware.ts:17 | the anchored pattern: a leading `/`, no lookahead alternative matching right after it, and the final `.*` reaching the end of the path, so no line terminator |
| `Matcher.Excluded` | src/middleware.ts:17 | the negative lookahead: the three prefix alternatives, with `.` as a wildcard, and the six `.*\.ext$` alternatives |
| `Matcher.StartsWithPattern` | src/middleware.ts:17 | a prefix alternative of the lookahead, in which an unescaped `.` matches any character but a line terminator |
| `Matcher.DotStarThenAtEnd` | src/middleware.ts:17 | `.*` followed by a literal and the end of input, as a backtracking engine tries it |
| `Matcher.DotStarThenAtEndEndsWith` | src/middleware.ts:17 | whatever `.*lit$` matches ends in `lit`, with no line terminator before it |
| `Matcher.EndsWithGivesDotStarThenAtEnd` | src/middleware.ts:17 | an input that ends in `lit`, with no line terminator before it, is matched by `.*lit$` |
| `Matcher.DotStarThenAtEndMeansSuffix` | src/middleware.ts:17 | the lookahead branch `.*\.(ext)$` holds exactly when the text ends in the extension and holds no line terminator before it |
| `Matcher.MatchesExactly` | src/middleware.ts:17 | the middleware runs on a path exactly when the path starts with `/` and has no line terminator, and the text after the `/` neither starts with `_next/static`, `_next/image` or `favicon?ico` nor ends in `.svg`, `.png`, `.jpg`, `.jpeg`, `.gif` or `.webp` |
| `Matcher.PagesAreMatched` | src/middleware.ts:17 | `/`, `/login` and `/sign-up` always pass the matcher |
| `Matcher.AssetsAreSkipped` | src/middleware.ts:17 | the example paths `/_next/static/app.js` and `/favicon.ico` are skipped, and so is `/faviconXico`, because of the unescaped dot (`MatchesExactly` states the general rule) |
| `Matcher.ImagesAreSkipped` | src/middleware.ts:17 | the example path `/img/logo.png` is skipped because of its extension (`MatchesExactly` states the general rule) |
| `Matcher.LastExtensionDecides` | src/middleware.ts:17 | only the final extension counts: `/logo.png.txt` is matched |
| `Urls.Get` | src/middleware.ts:64 | `searchParams.get`: the value of the first pair with the name, or null when there is none |
| `Urls.Set` | src/middleware.ts:75 | `searchParams.set`: the first pair with the name takes the new value and later pairs of that name are removed; with no such pair, one is appended |
| `Urls.GetIsFirstValue` | src/middleware.ts:64 | `searchParams.get` yields the first value given for the name, and null exactly when the name is absent |
| `Urls.SetLeavesOneValue` | src/middleware.ts:74-75 | after `searchParams.set`, exactly one pair carries the name, with the new value, and `get` returns it |
| `Urls.SetKeepsOthers` | src/middleware.ts:89-90 | `set` keeps every pair with another name, in order |
| `Urls.SetKeepsOtherValues` | src/middleware.ts:74-75 | every other name reads the same values and the same `get` result after `set` |
| `Urls.SetAppendsWhenAbsent` | src/middleware.ts:75 | when the name is absent, `set` appends one pair at the end |
| `Urls.SetReplacesFirst` | src/middleware.ts:90 | when the name is present, `set` writes the new value in place of the first pair and drops the later ones, keeping everything before it |
| `Urls.SetIdempotent` | src/middleware.ts:75 | setting the same value twice equals setting it once |
| `Cookies.LastEntry` | src/middleware.ts:35 | the entry found for a name is the batch's last entry with that name, and there is one exactly when the batch writes the name |
| `Cookies.JarAfter` | src/middleware.ts:35 | the jar after a batch holds the old names plus the names the batch writes |
| `Cookies.ResponseAfter` | src/middleware.ts:39-41 | the rebuilt response's cookies are exactly the names of the latest batch |
| `Cookies.JarAfterStep` | src/middleware.ts:35 | writing one more cookie into the jar is a map update: the later value wins |
| `Cookies.ResponseAfterStep` | src/middleware.ts:39-41 | setting one more cookie on the response replaces any earlier one of that name, options included |
| `Cookies.JarAfterComposes` | src/middleware.ts:34-35 | two batches write the jar as their concatenation does |
| `Cookies.JarAfterAllIsLastValue` | src/middleware.ts:34-35 | after any number of batches, every name holds the last value any batch gave it, and untouched cookies keep their value |
| `Cookies.JarAfterAll` | src/middleware.ts:34-35 | the request jar after each batch of a `getUser` call has been written into it, in order |
| `Cookies.SessionCookies.GetAll` | src/middleware.ts:31-33 | the `getAll` callback: the request's current cookie jar |
| `Cookies.SessionCookies.constructor` | src/middleware.ts:22-24 | before the client runs, `supabaseResponse` forwards the incoming cookies and sets none |
| `Cookies.SessionCookies.SetAll` | src/middleware.ts:34-42 | the jar becomes the jar after the batch; the response is rebuilt to forward that jar and carries exactly the batch's last entries, with options |
| `Middleware.Classify` | src/middleware.ts:48-50 | a path is an auth page exactly when it equals `/login` or `/sign-up`, and the app root exactly when it equals `/` |
| `Middleware.Truthy` | src/middleware.ts:73 | an id field from the lookup is truthy exactly when it is a non-empty string |
| `Middleware.AsParam` | src/middleware.ts:90 | the string `searchParams.set` stores for an id field: `"undefined"`, `"null"`, or the text itself |
| `Middleware.HasNoteId` | src/middleware.ts:64 | `!searchParams.get("noteId")` is false: a first `noteId` value exists and is non-empty |
| `Middleware.NeedsUser` | src/middleware.ts:48-64 | the requests that reach `getUser`: an auth page, or `/` without a truthy `noteId` |
| `Middleware.Refreshed` | src/middleware.ts:34-42 | `supabaseResponse` after `getUser`'s batches: it forwards the jar after all of them and sets the last batch's entries; with no batch it is the initial response |
| `Middleware.WithNoteId` | src/middleware.ts:74-75 | the incoming URL, cloned, with `noteId` set: same origin and path |
| `Middleware.ResolveNote` | src/middleware.ts:69-91 | after `getUser` returned a user: one lookup; a redirect to a truthy id; otherwise one create and a redirect to its id; a failed fetch rejects |
| `Middleware.Session` | src/middleware.ts:21-110 | `updateSession` as a function: the outcome and the calls made, in order, for every route, user and collaborator reply |
| `Middleware.GetUserCall` | src/middleware.ts:53-55 | `getUser` returns the provider's user, and each of its cookie batches reaches `setAll` in order |
| `Middleware.UpdateSession` | src/middleware.ts:21-110 | the outcome and the calls made are those of `Session`, the specification of `updateSession` |
| `MiddlewareProperties.ClassifyIsExact` | src/middleware.ts:48-64 | there is no prefix match, trailing-slash match or case folding: `/login/` and `/Login` are ordinary paths |
| `MiddlewareProperties.CallsFollowOrder` | src/middleware.ts:48-91 | `getUser` is called exactly on an auth page or on `/` without a truthy `noteId`; the calls are a prefix of getUser, lookup, create, for the user `getUser` returned |
| `MiddlewareProperties.CallsAtMostOnce` | src/middleware.ts:52-91 | no collaborator call is made twice in one request |
| `MiddlewareProperties.NoCollaboratorWithoutNeed` | src/middleware.ts:62-110 | any other path, and `/` with a truthy `noteId`, calls nothing and returns the untouched `supabaseResponse` |
| `MiddlewareProperties.AuthPageDecision` | src/middleware.ts:52-60 | on an auth page a signed-in user is redirected to `/` on the base origin with an empty query, and anyone else gets the pass-through with the refreshed cookies |
| `MiddlewareProperties.NewestNoteReused` | src/middleware.ts:69-76 | when the lookup finds a note, the redirect carries that id as the only `noteId`, keeps origin, path and the other parameters, and no create is issued |
| `MiddlewareProperties.NoteCreatedWhenNoneFound` | src/middleware.ts:77-91 | when the lookup finds nothing, exactly one create is issued and the redirect carries its id as the only `noteId`, keeping everything else |
| `MiddlewareProperties.CreateOnlyAfterEmptyLookup` | src/middleware.ts:73-87 | a create is issued only for the signed-in user on `/` without a truthy `noteId`, after a successful lookup that found nothing |
| `MiddlewareProperties.FailedFetchRejects` | src/middleware.ts:70-87 | a failed lookup, or a failed create, makes the middleware reject, with no fallback |
| `MiddlewareProperties.RefreshedCarriesLatestBatch` | src/middleware.ts:34-42 | the pass-through forwards every refreshed cookie with its last value, and sets exactly the latest batch's entries |
| `MiddlewareProperties.OnlyPassthroughCarriesCookies` | src/middleware.ts:57-110 | only the pass-through carries cookies, and it carries the refresh's cookies exactly when `getUser` ran; a redirect does not depend on the cookies the refresh wrote |
| `MiddlewareProperties.NoSelfRedirect` | src/middleware.ts:57-91 | no redirect targets the path and query it came from, provided the created id is not empty |
| `MiddlewareProperties.EmptyCreatedIdRedirectsToItself` | src/middleware.ts:79-91 | with an empty created id, `/?noteId=` redirects to itself |
| `MiddlewareProperties.NoteRedirectIsFinal` | src/middleware.ts:64-91 | the target of a redirect from `/` passes through with no call, whatever the collaborators answer, provided the create endpoint never returns an empty id |
| `MiddlewareProperties.RedirectsSettle` | src/middleware.ts:48-91 | following the redirects, the third request at the latest passes through, provided the create endpoint never returns an empty id |
| `HomePage.ParamOf` | src/app/page.tsx:8 | the `noteId` value the page receives: absent, one string, or the array of all values when the parameter is repeated |
| `HomePage.NormalizeNoteId` | src/app/page.tsx:15 | an array gives its first element, a string gives itself, and a missing parameter gives `""` |
| `HomePage.PageReadsFirstNoteId` | src/app/page.tsx:12-15 | the page opens the first `noteId` value, or `""`; its id is non-empty exactly when the middleware sees a truthy `noteId` |
| `HomePage.SignedInRootPassthroughHasNote` | src/app/page.tsx:15 | a signed-in user whose request for `/` passes through reaches the page with a non-empty note id |
| `HomePage.StartingText` | src/app/page.tsx:28 | the editor starts with the found note's text, or `""` when no note is found |
| `HomePage.HomePageProps` | src/app/page.tsx:12-28 | the note query is keyed on the normalised id and the signed-in user's id, and the starting text is the found note's text or `""` |
| `Utils.HandleError` | src/lib/utils.ts:8-19 | an `Error` yields its message, and anything else yields "An unknown error occurred"; every input yields a report whose only field is `errorMessage` |
| `Utils.ReportHidesDetails` | src/lib/utils.ts:9-19 | the stack trace, and the text of a thrown non-`Error`, never reach the report |

## Left out

- Supabase client and identity provider (src/middleware.ts:26-45). `getUser` is its reply: an optional user and the cookie batches delivered to `setAll`. It is assumed never to throw. The environment variables for the client are not modelled.
- HTTP `fetch` and URL building (src/middleware.ts:70-71, 79-87). The lookup and create are functions from user id to a reply. A rejected fetch, a body that is not JSON and a `null` body are all one failure. An id field is modelled as missing, `null` or a string; numbers and other JSON values are not modelled. The user id is put into the fetch URL without encoding, and that is not modelled.
- `Cookies.SessionCookies.GetAll`: the `getAll` callback is modelled, but nothing in the model calls it. The provider's reply is a parameter, not a function of the cookies it reads.
- NextResponse internals: the 307 status, headers other than cookies, and the body. A pass-through is the request cookies it forwards plus the cookies it sets. A redirect is its target URL.
- The base URL (`NEXT_PUBLIC_BASE_URL`) is given as its origin, since `new URL("/", base)` keeps only the origin.
- `request.nextUrl.pathname` (line 48) and `new URL(request.url).pathname` (line 62) are taken to be the same path (assumed: no `basePath` or `i18n` in the Next.js config). They differ only under a base path or locale prefix.
- The framework's own translation of the matcher is not modelled: path-to-regexp, the `_next/data` prefix and locale prefixes. The pattern is read as an anchored, case-sensitive JavaScript regular expression.
- Percent-encoding and serialisation of query strings, and URL fragments (never sent to the server).
- Concurrency. Each request is modelled on its own, so the duplicate notes two concurrent requests may create are not captured.
- `Middleware.UpdateSession`: updates the cookie state in place only through `SessionCookies`. The request object is otherwise a value, so aliasing between the request and `supabaseResponse` is not modelled.
- The database query of the home page (src/app/page.tsx:17-19) is a parameter. How the database treats an `undefined` author filter is not modelled. React rendering and the `getUser` of `@/auth/server` are left out too.
- `cn` (src/lib/utils.ts:4-6): a thin wrapper over the `clsx` and `tailwind-merge` libraries.
- UI components, end-to-end test specs and `prisma.config.ts`: browser, React and configuration code, not part of this model.
