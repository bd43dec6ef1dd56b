/** The cookie bridge the middleware hands to the Supabase server client:
    `getAll` reads the request's cookie jar, and `setAll` writes each batch of
    refreshed cookies into that jar, rebuilds the pass-through response
    (`supabaseResponse`) and copies the batch, with its options, onto it. */
module Cookies {
  import opened Wrappers

  /** The options the client attaches to a cookie it writes; the middleware
      only passes them on. */
  datatype CookieOptions = CookieOptions(
    path: Option<string>,
    domain: Option<string>,
    maxAge: Option<int>,
    httpOnly: bool,
    sameSite: Option<string>,
    secure: bool)

  /** One entry of a `setAll` batch. */
  datatype CookieToSet = CookieToSet(name: string, value: string, options: CookieOptions)

  type Batch = seq<CookieToSet>

  /** A request cookie jar: cookie name to value. */
  type Jar = map<string, string>

  /** The cookies set on a response, by name, with their options. */
  type ResponseCookies = map<string, CookieToSet>

  /** The names a batch writes. */
  function Names(b: Batch): set<string> {
    set c | c in b :: c.name
  }

  /** The last entry of `b` named `name`, if any. */
  function LastEntry(b: Batch, name: string): (r: Option<CookieToSet>)
    ensures r.None? <==> name !in Names(b)
    ensures r.Some? ==> r.value.name == name
    ensures r.Some? ==>
      (exists i :: 0 <= i < |b| && b[i] == r.value && forall j :: i < j < |b| ==> b[j].name != name)
  {
    if b == [] then None
    else if b[|b| - 1].name == name then Some(b[|b| - 1])
    else
      var r := LastEntry(b[..|b| - 1], name);
      assert b == b[..|b| - 1] + [b[|b| - 1]];
      r
  }

  /** The jar after a batch: every name the batch writes holds the last value
      the batch gives it; every other cookie is as before. */
  function JarAfter(jar: Jar, b: Batch): (r: Jar)
    ensures r.Keys == jar.Keys + Names(b)
  {
    map n | n in jar.Keys + Names(b) ::
      match LastEntry(b, n)
      case Some(c) => c.value
      case None => jar[n]
  }

  /** The cookies of a response rebuilt for a batch: exactly the names the
      batch writes, each with its last entry, options included. */
  function ResponseAfter(b: Batch): (r: ResponseCookies)
    ensures r.Keys == Names(b)
  {
    map n | n in Names(b) :: LastEntry(b, n).value
  }

  /** The jar after several batches, applied in order. */
  function JarAfterAll(jar: Jar, batches: seq<Batch>): Jar {
    if batches == [] then jar
    else JarAfter(JarAfterAll(jar, batches[..|batches| - 1]), batches[|batches| - 1])
  }

  /** All the entries of several batches, in order. */
  function Concat(batches: seq<Batch>): Batch {
    if batches == [] then [] else Concat(batches[..|batches| - 1]) + batches[|batches| - 1]
  }

  lemma NamesAppend(b: Batch, c: CookieToSet)
    ensures Names(b + [c]) == Names(b) + {c.name}
  {
    assert forall x :: x in b + [c] <==> x in b || x == c;
  }

  lemma {:induction false} LastEntryAppend(b: Batch, c: CookieToSet, name: string)
    ensures LastEntry(b + [c], name) == if c.name == name then Some(c) else LastEntry(b, name)
  {
    assert (b + [c])[..|b|] == b;
  }

  /** Writing one more cookie into the jar is a map update. */
  lemma {:induction false} JarAfterStep(jar: Jar, b: Batch, c: CookieToSet)
    ensures JarAfter(jar, b + [c]) == JarAfter(jar, b)[c.name := c.value]
  {
    NamesAppend(b, c);
    forall n | n in jar.Keys + Names(b + [c])
      ensures JarAfter(jar, b + [c])[n] == JarAfter(jar, b)[c.name := c.value][n]
    {
      LastEntryAppend(b, c, n);
    }
  }

  /** Setting one more cookie on the response is a map update. */
  lemma {:induction false} ResponseAfterStep(b: Batch, c: CookieToSet)
    ensures ResponseAfter(b + [c]) == ResponseAfter(b)[c.name := c]
  {
    NamesAppend(b, c);
    forall n | n in Names(b + [c])
      ensures ResponseAfter(b + [c])[n] == ResponseAfter(b)[c.name := c][n]
    {
      LastEntryAppend(b, c, n);
    }
  }

  /** Two batches in a row write the jar as their concatenation does: a
      later batch's value wins over an earlier one's. */
  lemma {:induction false} JarAfterComposes(jar: Jar, a: Batch, b: Batch)
    ensures JarAfter(JarAfter(jar, a), b) == JarAfter(jar, a + b)
    decreases |b|
  {
    if b == [] {
      assert a + b == a;
      forall n | n in JarAfter(jar, a) ensures JarAfter(JarAfter(jar, a), b)[n] == JarAfter(jar, a)[n] {
      }
    } else {
      var init, c := b[..|b| - 1], b[|b| - 1];
      assert b == init + [c];
      assert a + b == (a + init) + [c];
      JarAfterComposes(jar, a, init);
      JarAfterStep(JarAfter(jar, a), init, c);
      JarAfterStep(jar, a + init, c);
    }
  }

  /** The jar after every batch holds, for each name, the last value any
      batch gave it. */
  lemma {:induction false} JarAfterAllIsLastValue(jar: Jar, batches: seq<Batch>)
    ensures JarAfterAll(jar, batches) == JarAfter(jar, Concat(batches))
  {
    if batches == [] {
      forall n | n in jar ensures JarAfter(jar, [])[n] == jar[n] {
      }
    } else {
      JarAfterAllIsLastValue(jar, batches[..|batches| - 1]);
      JarAfterComposes(jar, Concat(batches[..|batches| - 1]), batches[|batches| - 1]);
    }
  }

  /** The state the `setAll` callback closes over: the request's cookie jar
      and the current `supabaseResponse`, whose forwarded request cookies and
      response cookies are kept as two fields. */
  class SessionCookies {
    /** `request.cookies`. */
    var jar: Jar
    /** The request cookies the current `supabaseResponse` forwards to
        rendering, captured when it was built. */
    var forwarded: Jar
    /** The cookies set on the current `supabaseResponse`. */
    var responseCookies: ResponseCookies

    /** The state before the client runs: `NextResponse.next({ request })`
        forwards the incoming cookies and sets none. */
    constructor (incoming: Jar)
      ensures jar == incoming && forwarded == incoming && responseCookies == map[]
    {
      jar := incoming;
      forwarded := incoming;
      responseCookies := map[];
    }

    /** The `getAll` callback. */
    function GetAll(): Jar
      reads this
    {
      jar
    }

    /** The `setAll` callback: write the batch into the request jar, rebuild
        the response from the updated request, then set the batch on it. */
    method SetAll(batch: Batch)
      modifies this
      ensures jar == JarAfter(old(jar), batch)
      ensures forwarded == jar
      ensures responseCookies == ResponseAfter(batch)
    {
      var i := 0;
      ghost var start := jar;
      assert jar == JarAfter(start, batch[..0]) by {
        forall n | n in start ensures JarAfter(start, [])[n] == start[n] {
        }
      }
      while i < |batch|
        invariant 0 <= i <= |batch|
        invariant jar == JarAfter(start, batch[..i])
      {
        JarAfterStep(start, batch[..i], batch[i]);
        assert batch[..i + 1] == batch[..i] + [batch[i]];
        jar := jar[batch[i].name := batch[i].value];
        i := i + 1;
      }
      assert batch[..i] == batch;
      forwarded := jar;
      responseCookies := map[];
      i := 0;
      while i < |batch|
        invariant 0 <= i <= |batch|
        invariant responseCookies == ResponseAfter(batch[..i])
        invariant jar == JarAfter(start, batch) && forwarded == jar
      {
        ResponseAfterStep(batch[..i], batch[i]);
        assert batch[..i + 1] == batch[..i] + [batch[i]];
        responseCookies := responseCookies[batch[i].name := batch[i]];
        i := i + 1;
      }
      assert batch[..i] == batch;
    }
  }
}
