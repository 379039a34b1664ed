/**
 The BrowserSync middleware's routing decision, as a pure function of the request URL
 and the set of registry keys (the names of the entries). Each request gets exactly one
 of three dispositions: a permanent redirect to the short URL of an entry, an in-place
 rewrite of the URL to the entry's generated HTML page, or passing the request on
 unchanged.
 */
module Router {
  import opened JsStrings

  datatype Disposition =
    | Redirect(location: string)  // 301 with this Location; the response is ended
    | Rewrite(target: string)     // req.url becomes this; next() is called
    | PassThrough                 // next() is called; req.url is untouched

  /** The URL an entry's short address is rewritten to: `/src/<e>/<e>.html`. */
  function RewriteTarget(e: string): string
  {
    "/src/" + e + "/" + e + ".html"
  }

  /** Every key of the registry is slash-free (true of the configured registry). */
  predicate KeysSlashFree(keys: set<string>)
  {
    forall k :: k in keys ==> SlashFree(k)
  }

  /** The decision the middleware takes for `url`, given the registry's keys. */
  function Route(url: string, keys: set<string>): Disposition
  {
    if StartsWith(url, "/src/") then
      var entry := At(Split(url), 2);
      if Includes(keys, entry) then Redirect("/" + entry.value) else PassThrough
    else if Substring1(url) in keys then
      Rewrite(RewriteTarget(Substring1(url)))
    else
      PassThrough
  }

  /**
   A URL under `/src/` splits into `""`, `"src"` and then the pieces of what follows
   `/src/`, so index 2 always exists: it is the text up to the next slash, possibly empty.
   */
  lemma SrcSegments(url: string)
    requires StartsWith(url, "/src/")
    ensures Split(url) == ["", "src"] + Split(url[5..])
    ensures |Split(url)| >= 3 && Split(url)[2] == Split(url[5..])[0]
  {
    assert url == "" + "/" + ("src" + "/" + url[5..]);
    SplitAfterPiece("src", url[5..]);
    SplitAfterPiece("", "src" + "/" + url[5..]);
  }

  /** Under `/src/`, the route depends only on the first piece after `/src/`. */
  lemma SrcRouting(url: string, keys: set<string>)
    requires StartsWith(url, "/src/")
    ensures var seg := Split(url[5..])[0];
      Route(url, keys) == if seg in keys then Redirect("/" + seg) else PassThrough
  {
    SrcSegments(url);
  }

  /** `/src/<e>/<anything>` for a key `e` is redirected to `/<e>`. */
  lemma RedirectsEntryPath(keys: set<string>, e: string, s: string)
    requires e in keys && SlashFree(e)
    ensures Route("/src/" + e + "/" + s, keys) == Redirect("/" + e)
  {
    var url := "/src/" + e + "/" + s;
    assert StartsWith(url, "/src/");
    assert url[5..] == e + "/" + s;
    SrcRouting(url, keys);
    SplitAfterPiece(e, s);
  }

  /** `/src/<e>` with nothing after it, for a key `e`, is redirected to `/<e>`. */
  lemma RedirectsBareEntryPath(keys: set<string>, e: string)
    requires e in keys && SlashFree(e)
    ensures Route("/src/" + e, keys) == Redirect("/" + e)
  {
    var url := "/src/" + e;
    assert StartsWith(url, "/src/");
    assert url[5..] == e;
    SrcRouting(url, keys);
    SplitSlashFree(e);
  }

  /** `/src/` alone leaves the empty piece at index 2: a redirect to `/` only if `""` is a key. */
  lemma SrcRoot(keys: set<string>)
    ensures Route("/src/", keys) == if "" in keys then Redirect("/") else PassThrough
  {
    SrcRouting("/src/", keys);
    assert "/src/"[5..] == "";
  }

  /** A redirect always names a key, and a slash-free one. */
  lemma RedirectNamesKey(url: string, keys: set<string>)
    requires Route(url, keys).Redirect?
    ensures var loc := Route(url, keys).location;
      |loc| >= 1 && loc[0] == '/' && loc[1..] in keys && SlashFree(loc[1..])
  {
    var entry := At(Split(url), 2);
    assert "/" + entry.value == Route(url, keys).location;
    assert ("/" + entry.value)[1..] == entry.value;
  }

  /** A slash-free URL beginning with "src/" cannot exist, so "/e" never looks like a /src/ URL. */
  lemma SlashFreeNotUnderSrc(e: string)
    requires SlashFree(e)
    ensures !StartsWith("/" + e, "/src/")
  {
    if |e| >= 4 {
      assert e[3] in e;
      assert ("/" + e)[..5][4] == e[3];
    }
  }

  /**
   `/<e>` for a key `e` is rewritten to the entry's HTML page, unless `/<e>` takes the
   `/src/` branch first (which a slash-free key never does, `SlashFreeNotUnderSrc`).
   */
  lemma RewritesEntry(keys: set<string>, e: string)
    requires e in keys && !StartsWith("/" + e, "/src/")
    ensures Route("/" + e, keys) == Rewrite(RewriteTarget(e))
  {
    assert Substring1("/" + e) == e;
  }

  /** A rewrite always moves the URL under `/src/`, so it really changes the URL. */
  lemma RewriteChangesUrl(url: string, keys: set<string>)
    requires Route(url, keys).Rewrite?
    ensures StartsWith(Route(url, keys).target, "/src/")
    ensures Route(url, keys).target != url
  {
    var t := Route(url, keys).target;
    assert t[..5] == "/src/";
  }

  /**
   Routing a rewrite target again does not pass through: with slash-free keys the
   target's third piece is the entry itself, so the second pass is a redirect back
   to the entry's short URL.
   */
  lemma RerouteRewriteTarget(keys: set<string>, e: string)
    requires e in keys && SlashFree(e)
    ensures Route(RewriteTarget(e), keys) == Redirect("/" + e)
  {
    assert RewriteTarget(e) == "/src/" + e + "/" + (e + ".html");
    RedirectsEntryPath(keys, e, e + ".html");
  }

  /** The redirect and rewrite branches chain: a redirect's Location is then rewritten. */
  lemma RedirectThenRewrite(url: string, keys: set<string>)
    requires Route(url, keys).Redirect?
    ensures var loc := Route(url, keys).location;
      |loc| >= 1 && Route(loc, keys) == Rewrite(RewriteTarget(loc[1..]))
  {
    var loc := Route(url, keys).location;
    RedirectNamesKey(url, keys);
    assert loc == "/" + loc[1..];
    SlashFreeNotUnderSrc(loc[1..]);
    RewritesEntry(keys, loc[1..]);
  }

  /** ... and a rewrite target, routed again, redirects back to the URL that was rewritten. */
  lemma RewriteThenRedirect(url: string, keys: set<string>)
    requires KeysSlashFree(keys)
    requires Route(url, keys).Rewrite?
    ensures Route(Route(url, keys).target, keys) == Redirect("/" + Substring1(url))
  {
    var e := Substring1(url);
    assert e in keys;
    RerouteRewriteTarget(keys, e);
  }
}
