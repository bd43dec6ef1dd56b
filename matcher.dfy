/** The path matcher of the middleware's `config`: the middleware runs on a
    request only when its pathname matches the pattern
    `/((?!_next/static|_next/image|favicon.ico|.*\.(?:svg|png|jpg|jpeg|gif|webp)$).*)`,
    read here as a JavaScript regular expression anchored at both ends. */
module Matcher {

  /** The characters JavaScript's `.` does not match (no `s` flag is given). */
  predicate IsLineTerminator(c: char) {
    c == '\n' || c == '\r' || c == '\U{2028}' || c == '\U{2029}'
  }

  predicate NoLineTerminator(s: string) {
    forall i :: 0 <= i < |s| ==> !IsLineTerminator(s[i])
  }

  /** One pattern character against one input character: an unescaped `.`
      is the wildcard, every other character stands for itself. */
  predicate CharMatches(p: char, c: char) {
    if p == '.' then !IsLineTerminator(c) else c == p
  }

  /** The input starts with text matched by `pat`, a pattern whose only
      metacharacter is the unescaped `.`. */
  predicate StartsWithPattern(s: string, pat: string) {
    |pat| <= |s| && forall i :: 0 <= i < |pat| ==> CharMatches(pat[i], s[i])
  }

  /** `.*` followed by the literal text `lit` and the end of the input, as a
      backtracking engine tries it: `lit` at this point, or one more
      character taken by `.*`. */
  predicate DotStarThenAtEnd(s: string, lit: string)
    decreases |s|
  {
    s == lit || (|s| > 0 && !IsLineTerminator(s[0]) && DotStarThenAtEnd(s[1..], lit))
  }

  /** The alternatives of the negative lookahead, tried right after the
      leading `/`. The three prefixes are written without escaping, so the
      `.` of `favicon.ico` is a wildcard; the extension's dot is escaped. */
  predicate Excluded(rest: string) {
    || StartsWithPattern(rest, "_next/static")
    || StartsWithPattern(rest, "_next/image")
    || StartsWithPattern(rest, "favicon.ico")
    || DotStarThenAtEnd(rest, ".svg")
    || DotStarThenAtEnd(rest, ".png")
    || DotStarThenAtEnd(rest, ".jpg")
    || DotStarThenAtEnd(rest, ".jpeg")
    || DotStarThenAtEnd(rest, ".gif")
    || DotStarThenAtEnd(rest, ".webp")
  }

  /** Whether the middleware runs for `path`: a leading `/`, the lookahead
      failing, and the final `.*` reaching the end of the path. */
  predicate Matches(path: string) {
    && |path| > 0
    && path[0] == '/'
    && !Excluded(path[1..])
    && NoLineTerminator(path[1..])
  }

  predicate EndsWith(s: string, suffix: string) {
    |suffix| <= |s| && s[|s| - |suffix|..] == suffix
  }

  /** Whatever `.*lit$` matches ends in `lit`, and `.*` took no line
      terminator on the way. */
  lemma {:induction false} DotStarThenAtEndEndsWith(s: string, lit: string)
    requires DotStarThenAtEnd(s, lit)
    ensures EndsWith(s, lit) && NoLineTerminator(s[..|s| - |lit|])
    decreases |s|
  {
    if s == lit {
      assert s[..0] == [];
    } else {
      var t := s[1..];
      DotStarThenAtEndEndsWith(t, lit);
      var k := |s| - |lit|;
      assert t[k - 1..] == s[k..];
      var before, tailBefore := s[..k], t[..k - 1];
      forall i | 0 <= i < |before| ensures !IsLineTerminator(before[i]) {
        if i > 0 {
          assert before[i] == tailBefore[i - 1];
        }
      }
    }
  }

  /** Conversely, an input that ends in `lit` with no line terminator before
      it is matched by `.*lit$`. */
  lemma {:induction false} EndsWithGivesDotStarThenAtEnd(s: string, lit: string)
    requires EndsWith(s, lit) && NoLineTerminator(s[..|s| - |lit|])
    ensures DotStarThenAtEnd(s, lit)
    decreases |s|
  {
    var k := |s| - |lit|;
    if k == 0 {
      assert s == s[0..];
    } else {
      var t := s[1..];
      assert !IsLineTerminator(s[0]) by {
        assert s[..k][0] == s[0];
      }
      assert t[k - 1..] == s[k..];
      var before, tailBefore := s[..k], t[..k - 1];
      forall i | 0 <= i < |tailBefore| ensures !IsLineTerminator(tailBefore[i]) {
        assert tailBefore[i] == before[i + 1];
      }
      EndsWithGivesDotStarThenAtEnd(t, lit);
    }
  }

  /** `.*lit$` holds exactly when the input ends in `lit` and what comes
      before it holds no line terminator. */
  lemma DotStarThenAtEndMeansSuffix(s: string, lit: string)
    ensures DotStarThenAtEnd(s, lit) <==> EndsWith(s, lit) && NoLineTerminator(s[..|s| - |lit|])
  {
    if DotStarThenAtEnd(s, lit) {
      DotStarThenAtEndEndsWith(s, lit);
    }
    if EndsWith(s, lit) && NoLineTerminator(s[..|s| - |lit|]) {
      EndsWithGivesDotStarThenAtEnd(s, lit);
    }
  }

  /** A pattern without `.` matches exactly its own text as a prefix. */
  lemma {:induction false} PlainPatternIsPrefix(s: string, pat: string)
    requires forall i :: 0 <= i < |pat| ==> pat[i] != '.'
    ensures StartsWithPattern(s, pat) <==> pat <= s
  {
    if StartsWithPattern(s, pat) {
      assert pat == s[..|pat|];
    }
  }

  /** The middleware runs on a path exactly when the path starts with `/`,
      holds no line terminator, and the text after the `/` neither starts
      with `_next/static`, `_next/image` or `favicon?ico` (any character in
      place of the `?`) nor ends in `.svg`, `.png`, `.jpg`, `.jpeg`, `.gif`
      or `.webp`. */
  lemma MatchesExactly(path: string)
    ensures Matches(path) <==>
      && |path| > 0
      && path[0] == '/'
      && NoLineTerminator(path[1..])
      && !("_next/static" <= path[1..])
      && !("_next/image" <= path[1..])
      && !StartsWithPattern(path[1..], "favicon.ico")
      && !EndsWith(path[1..], ".svg")
      && !EndsWith(path[1..], ".png")
      && !EndsWith(path[1..], ".jpg")
      && !EndsWith(path[1..], ".jpeg")
      && !EndsWith(path[1..], ".gif")
      && !EndsWith(path[1..], ".webp")
  {
    if |path| > 0 && path[0] == '/' {
      var rest := path[1..];
      PlainPatternIsPrefix(rest, "_next/static");
      PlainPatternIsPrefix(rest, "_next/image");
      if NoLineTerminator(rest) {
        var exts := [".svg", ".png", ".jpg", ".jpeg", ".gif", ".webp"];
        forall e | e in exts ensures DotStarThenAtEnd(rest, e) <==> EndsWith(rest, e) {
          DotStarThenAtEndMeansSuffix(rest, e);
          if EndsWith(rest, e) {
            assert forall i :: 0 <= i < |rest| - |e| ==> rest[..|rest| - |e|][i] == rest[i];
          }
        }
      }
    }
  }

  /** The application's own pages always pass the matcher. */
  lemma PagesAreMatched()
    ensures Matches("/") && Matches("/login") && Matches("/sign-up")
  {
    RootIsMatched();
    LoginIsMatched();
    SignUpIsMatched();
  }

  lemma RootIsMatched()
    ensures Matches("/")
  {
    assert "/"[1..] == "";
  }

  lemma LoginIsMatched()
    ensures Matches("/login")
  {
    var rest := "login";
    assert "/login"[1..] == rest;
    assert NoLineTerminator(rest);
    assert rest[0] == 'l' && rest[|rest| - 1] == 'n';
    MatchesExactly("/login");
  }

  lemma SignUpIsMatched()
    ensures Matches("/sign-up")
  {
    var rest := "sign-up";
    assert "/sign-up"[1..] == rest;
    assert NoLineTerminator(rest);
    assert rest[0] == 's' && rest[|rest| - 2..] == "up";
    MatchesExactly("/sign-up");
  }

  /** Static assets are skipped, and so, because the dot of `favicon.ico`
      is not escaped, is any path of the form `/favicon?ico`. */
  lemma AssetsAreSkipped()
    ensures !Matches("/_next/static/app.js")
    ensures !Matches("/favicon.ico")
    ensures !Matches("/faviconXico")
  {
    assert StartsWithPattern("_next/static/app.js", "_next/static");
    assert StartsWithPattern("favicon.ico", "favicon.ico");
    assert StartsWithPattern("faviconXico", "favicon.ico");
  }

  /** Image paths are skipped by their extension. */
  lemma ImagesAreSkipped()
    ensures !Matches("/img/logo.png")
  {
    var rest := "img/logo.png";
    assert rest[8..] == ".png";
    assert rest[..8] == "img/logo";
    assert NoLineTerminator("img/logo");
    DotStarThenAtEndMeansSuffix(rest, ".png");
  }

  /** Only the last extension counts: a text file named after an image is
      still handled by the middleware. */
  lemma LastExtensionDecides()
    ensures Matches("/logo.png.txt")
  {
    var rest := "logo.png.txt";
    assert NoLineTerminator(rest);
    assert rest[0] == 'l';
    assert rest[|rest| - 1] == 't';
    MatchesExactly("/logo.png.txt");
  }
}
